/**
 * Characters and NUL-terminated strings as the C library sees them: the
 * C-locale character classes of <ctype.h>, and a char buffer read through a
 * pointer (an index into the buffer) up to its terminator.
 */
module CText {

  const NUL: char := '\0'

  /** The content of a C string: the characters before its terminator. */
  type CStr = s: seq<char> | '\0' !in s

  /** isspace in the C locale: ' ', '\t', '\n', '\v', '\f' and '\r'. */
  predicate IsSpace(c: char) {
    c == ' ' || '\t' <= c <= '\r'
  }

  predicate IsDigit(c: char) {
    '0' <= c <= '9'
  }

  predicate IsAlpha(c: char) {
    'a' <= c <= 'z' || 'A' <= c <= 'Z'
  }

  predicate IsAlnum(c: char) {
    IsAlpha(c) || IsDigit(c)
  }

  /** Every character of t is white space; the empty string is blank. */
  predicate IsBlank(t: seq<char>) {
    forall i :: 0 <= i < |t| ==> IsSpace(t[i])
  }

  /** `str[k]` for a C string with content t: past the content lies the terminator. */
  function At(t: CStr, k: nat): (c: char)
    requires k <= |t|
    ensures c == NUL <==> k == |t|
  {
    if k < |t| then t[k] else NUL
  }

  // ---------------------------------------------------------------------
  // Buffers and pointers

  /** Pointer p into the buffer s points at a string that has a terminator. */
  predicate Terminated(s: seq<char>, p: int) {
    0 <= p && exists k :: p <= k < |s| && s[k] == NUL
  }

  /** strlen(s + p): the distance from p to the first terminator. */
  function StrLen(s: seq<char>, p: nat): (n: nat)
    requires Terminated(s, p)
    ensures p + n < |s| && s[p + n] == NUL
    ensures forall i :: p <= i < p + n ==> s[i] != NUL
    decreases |s| - p
  {
    if s[p] == NUL then 0 else 1 + StrLen(s, p + 1)
  }

  /** The content of the C string that pointer p points at. */
  function Str(s: seq<char>, p: nat): (r: CStr)
    requires Terminated(s, p)
    ensures |r| == StrLen(s, p)
    ensures forall i :: 0 <= i < |r| ==> r[i] == s[p + i]
  {
    seq(StrLen(s, p), i requires 0 <= i < StrLen(s, p) => s[p + i])
  }

  /** A terminator at p + n with none before it fixes strlen at n. */
  lemma {:induction false} StrLenAt(s: seq<char>, p: nat, n: nat)
    requires p + n < |s| && s[p + n] == NUL
    requires forall i :: p <= i < p + n ==> s[i] != NUL
    ensures Terminated(s, p) && StrLen(s, p) == n
    decreases n
  {
    if n > 0 {
      StrLenAt(s, p + 1, n - 1);
    }
  }

  /** A buffer that holds t at p, followed by a terminator, holds the C string t there. */
  lemma {:induction false} StrIs(s: seq<char>, p: nat, t: seq<char>)
    requires p + |t| < |s| && s[p + |t|] == NUL
    requires forall i :: 0 <= i < |t| ==> s[p + i] == t[i] && t[i] != NUL
    ensures Terminated(s, p) && StrLen(s, p) == |t| && Str(s, p) == t
  {
    forall i | p <= i < p + |t| ensures s[i] != NUL {
      assert s[p + (i - p)] == t[i - p];
    }
    StrLenAt(s, p, |t|);
    assert forall i :: 0 <= i < |t| ==> Str(s, p)[i] == t[i];
  }

  /** Moving the pointer k characters into a string yields the rest of it. */
  lemma {:induction false} StrSuffix(s: seq<char>, p: nat, k: nat)
    requires Terminated(s, p) && k <= StrLen(s, p)
    ensures Terminated(s, p + k) && StrLen(s, p + k) == StrLen(s, p) - k
    ensures Str(s, p + k) == Str(s, p)[k..]
  {
    var t := Str(s, p)[k..];
    forall i | 0 <= i < |t| ensures s[p + k + i] == t[i] && t[i] != NUL {
      assert t[i] == Str(s, p)[k + i];
    }
    StrIs(s, p + k, t);
  }

  /** A string only depends on its own characters and its terminator. */
  lemma {:induction false} StrFrame(s: seq<char>, s': seq<char>, p: nat)
    requires Terminated(s, p) && |s'| == |s|
    requires forall i :: p <= i <= p + StrLen(s, p) ==> s'[i] == s[i]
    ensures Terminated(s', p) && StrLen(s', p) == StrLen(s, p) && Str(s', p) == Str(s, p)
  {
    var t := Str(s, p);
    forall i | 0 <= i < |t| ensures s'[p + i] == t[i] && t[i] != NUL {
    }
    StrIs(s', p, t);
  }

  /** The rest of a C string past k characters is a C string. */
  lemma {:induction false} CStrDrop(t: CStr, k: nat)
    requires k <= |t|
    ensures NUL !in t[k..]
  {
    assert forall i :: 0 <= i < |t| - k ==> t[k..][i] == t[k + i];
  }

  /** A buffer holding exactly the content t followed by its terminator. */
  lemma {:induction false} StrOfContent(t: CStr)
    ensures Terminated(t + [NUL], 0) && Str(t + [NUL], 0) == t
  {
    StrIs(t + [NUL], 0, t);
  }

  // ---------------------------------------------------------------------
  // Blanks, words and trimming

  /** The first index at or after k whose character is not white space, or |t|. */
  function SkipSpaces(t: seq<char>, k: nat): (r: nat)
    requires k <= |t|
    ensures k <= r <= |t|
    ensures forall i :: k <= i < r ==> IsSpace(t[i])
    ensures r < |t| ==> !IsSpace(t[r])
    decreases |t| - k
  {
    if k < |t| && IsSpace(t[k]) then SkipSpaces(t, k + 1) else k
  }

  /** The end of the word that starts at k: the first white space at or after k, or |t|. */
  function WordEnd(t: seq<char>, k: nat): (r: nat)
    requires k <= |t|
    ensures k <= r <= |t|
    ensures forall i :: k <= i < r ==> !IsSpace(t[i])
    ensures r < |t| ==> IsSpace(t[r])
    decreases |t| - k
  {
    if k < |t| && !IsSpace(t[k]) then WordEnd(t, k + 1) else k
  }

  /** The end of the text before k once the white space before k is dropped. */
  function TextEnd(t: seq<char>, k: nat): (r: nat)
    requires k <= |t|
    ensures r <= k
    ensures forall i :: r <= i < k ==> IsSpace(t[i])
    ensures r > 0 ==> !IsSpace(t[r - 1])
    decreases k
  {
    if k > 0 && IsSpace(t[k - 1]) then TextEnd(t, k - 1) else k
  }

  /** Number of white-space characters at the start of t. */
  function LeadingBlanks(t: seq<char>): (n: nat)
    ensures n <= |t|
    ensures forall i :: 0 <= i < n ==> IsSpace(t[i])
    ensures n < |t| ==> !IsSpace(t[n])
  {
    SkipSpaces(t, 0)
  }

  /** The white space from k up to n ends exactly at n. */
  lemma {:induction false} SkipSpacesIs(t: seq<char>, k: nat, n: nat)
    requires k <= n <= |t|
    requires forall i :: k <= i < n ==> IsSpace(t[i])
    requires n < |t| ==> !IsSpace(t[n])
    ensures SkipSpaces(t, k) == n
    decreases n - k
  {
    if k < n {
      SkipSpacesIs(t, k + 1, n);
    }
  }

  /** The word from k up to n ends exactly at n. */
  lemma {:induction false} WordEndIs(t: seq<char>, k: nat, n: nat)
    requires k <= n <= |t|
    requires forall i :: k <= i < n ==> !IsSpace(t[i])
    requires n < |t| ==> IsSpace(t[n])
    ensures WordEnd(t, k) == n
    decreases n - k
  {
    if k < n {
      WordEndIs(t, k + 1, n);
    }
  }

  /** The count of leading blanks is the only one with these two properties. */
  lemma {:induction false} LeadingBlanksIs(t: seq<char>, n: nat)
    requires n <= |t|
    requires forall i :: 0 <= i < n ==> IsSpace(t[i])
    requires n < |t| ==> !IsSpace(t[n])
    ensures LeadingBlanks(t) == n
  {
    SkipSpacesIs(t, 0, n);
  }

  /** A string is blank exactly when it is all leading blanks. */
  lemma {:induction false} BlankIffAllLeading(t: seq<char>)
    ensures IsBlank(t) <==> LeadingBlanks(t) == |t|
  {
  }

  /** The index of the first c in t at or after k, or |t| when there is none. */
  function IndexFrom(t: seq<char>, c: char, k: nat): (r: nat)
    requires k <= |t|
    ensures k <= r <= |t|
    ensures forall i :: k <= i < r ==> t[i] != c
    ensures r < |t| ==> t[r] == c
    decreases |t| - k
  {
    if k == |t| || t[k] == c then k else IndexFrom(t, c, k + 1)
  }

  /** strchr: the index of the first c in t, or |t| when t holds none. */
  function IndexOf(t: seq<char>, c: char): (k: nat)
    ensures k <= |t|
    ensures forall i :: 0 <= i < k ==> t[i] != c
    ensures k < |t| ==> t[k] == c
  {
    IndexFrom(t, c, 0)
  }

  /** Some character of s before index k is not white space. */
  predicate HasNonSpaceBefore(s: seq<char>, k: int) {
    exists i :: 0 <= i < k && i < |s| && !IsSpace(s[i])
  }

  /** The index of the last character of s before k that is not white space. */
  function LastNonSpace(s: seq<char>, k: nat): (j: nat)
    requires k <= |s| && HasNonSpaceBefore(s, k)
    ensures j < k && !IsSpace(s[j])
    ensures forall i :: j < i < k ==> IsSpace(s[i])
    decreases k
  {
    if !IsSpace(s[k - 1]) then k - 1 else LastNonSpace(s, k - 1)
  }

  /** The last non-space character before k is the only one with these properties. */
  lemma {:induction false} LastNonSpaceIs(s: seq<char>, k: nat, j: nat)
    requires j < k <= |s| && !IsSpace(s[j])
    requires forall i :: j < i < k ==> IsSpace(s[i])
    ensures HasNonSpaceBefore(s, k) && LastNonSpace(s, k) == j
  {
  }

  /**
   * t without its leading and trailing white space: the characters of t
   * from the first to the last one that is not white space, and nothing
   * when t is blank.
   */
  function Trimmed(t: seq<char>): (r: seq<char>)
    ensures r == [] <==> IsBlank(t)
    ensures LeadingBlanks(t) + |r| <= |t|
    ensures forall i :: 0 <= i < |r| ==> r[i] == t[LeadingBlanks(t) + i]
    ensures forall i :: LeadingBlanks(t) + |r| <= i < |t| ==> IsSpace(t[i])
    ensures r != [] ==> !IsSpace(r[0]) && !IsSpace(r[|r| - 1])
  {
    var lead := LeadingBlanks(t);
    BlankIffAllLeading(t);
    if lead == |t| then []
    else
      var e := TextEnd(t, |t|);
      t[lead..e]
  }

  /** Trimmed(t) runs from the first to the last character that is not white space. */
  lemma {:induction false} TrimmedIs(t: seq<char>, a: nat, b: nat)
    requires a < b <= |t|
    requires forall i :: 0 <= i < a ==> IsSpace(t[i])
    requires !IsSpace(t[a]) && !IsSpace(t[b - 1])
    requires forall i :: b <= i < |t| ==> IsSpace(t[i])
    ensures LeadingBlanks(t) == a && |Trimmed(t)| == b - a
  {
    LeadingBlanksIs(t, a);
    var r := Trimmed(t);
    assert r != [];
    assert r[|r| - 1] == t[a + |r| - 1];
  }

  /** The first word of t: the characters after the leading blanks up to the next white space. */
  function FirstWord(t: seq<char>): (r: seq<char>)
    ensures |r| == WordEnd(t, LeadingBlanks(t)) - LeadingBlanks(t)
    ensures forall i :: 0 <= i < |r| ==> r[i] == t[LeadingBlanks(t) + i]
  {
    var lead := LeadingBlanks(t);
    seq(WordEnd(t, lead) - lead, i requires 0 <= i < WordEnd(t, lead) - lead => t[lead + i])
  }

  /** What follows the first word of t and the one white-space character after it. */
  function AfterWord(t: seq<char>): (r: seq<char>)
    ensures WordEnd(t, LeadingBlanks(t)) == |t| ==> r == []
    ensures WordEnd(t, LeadingBlanks(t)) < |t| ==> |r| == |t| - WordEnd(t, LeadingBlanks(t)) - 1
    ensures forall i :: 0 <= i < |r| ==> r[i] == t[WordEnd(t, LeadingBlanks(t)) + 1 + i]
  {
    var w := WordEnd(t, LeadingBlanks(t));
    if w == |t| then [] else seq(|t| - w - 1, i requires 0 <= i < |t| - w - 1 => t[w + 1 + i])
  }
}
