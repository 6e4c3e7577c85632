/**
  The forgiving string helpers of libebm's C layer (shared/libebm/common_c/common_c.c).

  A C string is a `seq<char>` whose last element is the NUL terminator and which holds
  no other NUL; a `const char *` into it is an index into that sequence, and a NULL
  result is `None`. Each helper advances its index one char at a time, as the C code
  advances its pointer.
 */
module CommonC {
  import opened Wrappers

  /** A NUL-terminated buffer with no NUL before its terminator. */
  predicate IsCString(s: seq<char>) {
    && |s| > 0
    && s[|s| - 1] == '\0'
    && forall k :: 0 <= k < |s| - 1 ==> s[k] != '\0'
  }

  /** The whitespace class libebm skips: the space 0x20 or a char in 0x09..0x0D. */
  predicate IsWhitespace(c: char) {
    c == ' ' || ('\t' <= c <= '\r')
  }

  /** Every char of `s` in [lo, hi) is whitespace. */
  predicate WhitespaceBetween(s: seq<char>, lo: nat, hi: nat)
    requires hi <= |s|
  {
    forall k :: lo <= k < hi ==> IsWhitespace(s[k])
  }

  /** Every char of `s` from `from` up to (not including) the terminator is whitespace. */
  predicate OnlyWhitespaceFrom(s: seq<char>, from: nat) {
    forall k :: from <= k < |s| - 1 ==> IsWhitespace(s[k])
  }

  predicate IsAsciiUpper(c: char) {
    'A' <= c <= 'Z'
  }

  /** The case folding used by the comparison: only 'A'..'Z' change, each to the
      lower-case letter at the same position of the alphabet. */
  function ToLowerAscii(c: char): (r: char)
    ensures IsAsciiUpper(c) ==> 'a' <= r <= 'z' && r as int - 'a' as int == c as int - 'A' as int
    ensures !IsAsciiUpper(c) ==> r == c
    ensures !IsAsciiUpper(r)
  {
    if IsAsciiUpper(c) then (c as int + ('a' as int - 'A' as int)) as char else c
  }

  /** Two chars compare equal after folding exactly when they are the same char or the
      same ASCII letter in different case. */
  lemma FoldedEqualityIsCaseInsensitive(a: char, b: char)
    ensures ToLowerAscii(a) == ToLowerAscii(b) <==>
      || a == b
      || (IsAsciiUpper(a) && b as int == a as int + 32)
      || (IsAsciiUpper(b) && a as int == b as int + 32)
  {
  }

  /** The label (the text of `labelStr` before its terminator) matches `main` from `start`:
      each label position that lies in `main` is equal to it after folding. A label
      position that meets `main`'s terminator is a mismatch, because no label char
      folds to NUL. */
  predicate MatchesAt(main: seq<char>, start: nat, labelStr: seq<char>)
    requires IsCString(labelStr)
  {
    forall k :: 0 <= k < |labelStr| - 1 && start + k < |main| ==>
      ToLowerAscii(main[start + k]) == ToLowerAscii(labelStr[k])
  }

  /** A main string whose text from `start` is shorter than the label never matches it. */
  lemma ShortMainNeverMatches(main: seq<char>, start: nat, labelStr: seq<char>)
    requires IsCString(main) && start < |main| && IsCString(labelStr)
    requires |main| - 1 - start < |labelStr| - 1
    ensures !MatchesAt(main, start, labelStr)
  {
    var k := |main| - 1 - start;
    assert main[start + k] == '\0' && labelStr[k] != '\0';
    assert ToLowerAscii(main[start + k]) != ToLowerAscii(labelStr[k]);
  }

  /** SkipWhitespace: the first position at or after `start` that is not whitespace. */
  method SkipWhitespace(s: seq<char>, start: nat) returns (p: nat)
    requires IsCString(s) && start < |s|
    ensures start <= p < |s|
    ensures WhitespaceBetween(s, start, p)
    ensures !IsWhitespace(s[p])
  {
    p := start;
    var oneChar := s[p];
    while oneChar == ' ' || ('\t' <= oneChar <= '\r')
      invariant start <= p < |s| && oneChar == s[p]
      invariant WhitespaceBetween(s, start, p)
      decreases |s| - p
    {
      p := p + 1;
      oneChar := s[p];
    }
  }

  /** What `strtod` reports for the text at the start index: the converted value and
      where it stopped (`None` stands for a NULL end pointer). */
  datatype StrtodOutcome = StrtodOutcome(value: real, end: Option<nat>)

  /** ConvertStringToFloat. `strtod` itself is not modelled: `parse` is its outcome, and
      `resultIn` is what `*pResultOut` held before the call. The result is NULL when the
      parse consumed nothing (or reported a NULL end), and the output is then left as it
      was; otherwise the output is the parsed value and the result skips the whitespace
      after the parsed text. */
  method ConvertStringToFloat(s: seq<char>, start: nat, parse: StrtodOutcome, resultIn: real)
    returns (next: Option<nat>, resultOut: real)
    requires IsCString(s) && start < |s|
    requires parse.end.Some? ==> start <= parse.end.value < |s|
    ensures next.None? <==> parse.end == None || parse.end == Some(start)
    ensures next.None? ==> resultOut == resultIn
    ensures next.Some? ==> resultOut == parse.value
    ensures next.Some? ==> parse.end.Some? && parse.end.value <= next.value < |s|
    ensures next.Some? ==> WhitespaceBetween(s, parse.end.value, next.value) && !IsWhitespace(s[next.value])
  {
    if parse.end == Some(start) || parse.end == None {
      return None, resultIn;
    }
    var p := SkipWhitespace(s, parse.end.value);
    return Some(p), parse.value;
  }

  /** IsStringEqualsCaseInsensitive: NULL when the label does not match `main` at
      `start`; otherwise the first non-whitespace position after the matched text. */
  method IsStringEqualsCaseInsensitive(main: seq<char>, start: nat, labelStr: seq<char>)
    returns (r: Option<nat>)
    requires IsCString(main) && start < |main| && IsCString(labelStr)
    ensures r.None? <==> !MatchesAt(main, start, labelStr)
    ensures r.Some? ==> start + |labelStr| - 1 <= r.value < |main|
    ensures r.Some? ==> WhitespaceBetween(main, start + |labelStr| - 1, r.value)
    ensures r.Some? ==> !IsWhitespace(main[r.value])
  {
    var sMain, sLabel := start, 0;
    var mainChar, labelChar := main[sMain], labelStr[sLabel];
    while labelChar != '\0'
      invariant sLabel < |labelStr| && labelChar == labelStr[sLabel]
      invariant sMain == start + sLabel && sMain < |main| && mainChar == main[sMain]
      invariant forall k :: 0 <= k < sLabel ==> ToLowerAscii(main[start + k]) == ToLowerAscii(labelStr[k])
      decreases |labelStr| - sLabel
    {
      if 'A' <= mainChar <= 'Z' {
        mainChar := (mainChar as int + ('a' as int - 'A' as int)) as char;
      }
      if 'A' <= labelChar <= 'Z' {
        labelChar := (labelChar as int + ('a' as int - 'A' as int)) as char;
      }
      assert mainChar == ToLowerAscii(main[sMain]) && labelChar == ToLowerAscii(labelStr[sLabel]);
      if mainChar != labelChar {
        return None;
      }
      assert main[sMain] != '\0';
      sMain, sLabel := sMain + 1, sLabel + 1;
      mainChar, labelChar := main[sMain], labelStr[sLabel];
    }
    assert sLabel == |labelStr| - 1;
    while mainChar == ' ' || ('\t' <= mainChar <= '\r')
      invariant start + |labelStr| - 1 <= sMain < |main| && mainChar == main[sMain]
      invariant WhitespaceBetween(main, start + |labelStr| - 1, sMain)
      decreases |main| - sMain
    {
      sMain := sMain + 1;
      mainChar := main[sMain];
    }
    return Some(sMain);
  }

  /** IsStringEqualsForgiving: true exactly when the label matches `main` at `start`
      and nothing but whitespace follows the matched text up to the terminator. */
  method IsStringEqualsForgiving(main: seq<char>, start: nat, labelStr: seq<char>) returns (b: bool)
    requires IsCString(main) && start < |main| && IsCString(labelStr)
    ensures b <==> MatchesAt(main, start, labelStr) && OnlyWhitespaceFrom(main, start + |labelStr| - 1)
  {
    var next := IsStringEqualsCaseInsensitive(main, start, labelStr);
    if next.None? || '\0' != main[next.value] {
      return false;
    }
    return true;
  }
}
