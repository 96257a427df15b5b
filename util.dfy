/** Character classes, numeral recognisers and the bounded string copy of util.c.
    Strings handed to the recognisers are modelled as the characters before their
    terminating NUL; only the copy works with NUL-terminated buffers. */
module Util {

  // ---------------------------------------------------------------------------
  // Character classes
  // ---------------------------------------------------------------------------

  /** An octal digit '0'..'7'. */
  function IsOctal(ch: char): (b: bool)
    ensures b <==> ch in "01234567"
  {
    '0' <= ch <= '7'
  }

  /** A decimal digit '0'..'9'. */
  function IsDigit(ch: char): (b: bool)
    ensures b <==> ch in "0123456789"
  {
    '0' <= ch <= '9'
  }

  /** A hexadecimal digit, either case. */
  function IsHex(ch: char): (b: bool)
    ensures b <==> ch in "0123456789ABCDEFabcdef"
  {
    ('0' <= ch <= '9') || ('A' <= ch <= 'F') || ('a' <= ch <= 'f')
  }

  /** The classes are nested: octal digits are digits, digits are hex digits. */
  lemma ClassesNested(ch: char)
    ensures IsOctal(ch) ==> IsDigit(ch)
    ensures IsDigit(ch) ==> IsHex(ch)
    ensures IsHex(ch) && !IsDigit(ch) ==> ch in "ABCDEFabcdef"
  {
  }

  // ---------------------------------------------------------------------------
  // Numeral grammars (reference definitions)
  // ---------------------------------------------------------------------------

  /** At least three characters, "0x" or "0X", then hex digits only. */
  predicate IsHexStr(s: seq<char>)
  {
    && |s| >= 3
    && s[0] == '0' && (s[1] == 'x' || s[1] == 'X')
    && forall i :: 2 <= i < |s| ==> IsHex(s[i])
  }

  /** At least two characters, a leading '0', then octal digits only. */
  predicate IsOctalStr(s: seq<char>)
  {
    && |s| >= 2
    && s[0] == '0'
    && forall i :: 1 <= i < |s| ==> IsOctal(s[i])
  }

  /** Digits only, with no leading '0' unless the string is just "0".
      The empty string is accepted. */
  predicate IsIntStr(s: seq<char>)
  {
    && !(|s| > 1 && s[0] == '0')
    && forall i :: 0 <= i < |s| ==> IsDigit(s[i])
  }

  /** The position of the only '.' in s. */
  predicate IsOnlyDot(s: seq<char>, k: int)
  {
    0 <= k < |s| && s[k] == '.' && forall i :: 0 <= i < |s| && i != k ==> s[i] != '.'
  }

  /** At least two characters, digits and exactly one '.', and not a leading
      '0' followed by anything but '.'. */
  predicate IsFloatStr(s: seq<char>)
  {
    && |s| >= 2
    && !(s[0] == '0' && s[1] != '.')
    && (forall i :: 0 <= i < |s| ==> s[i] == '.' || IsDigit(s[i]))
    && exists k :: 0 <= k < |s| && IsOnlyDot(s, k)
  }

  // ---------------------------------------------------------------------------
  // The recognisers as the source runs them: index loops with early return
  // ---------------------------------------------------------------------------

  method HexStr(s: seq<char>) returns (b: bool)
    ensures b == IsHexStr(s)
  {
    var len := |s|;
    if len < 3 {
      return false;
    }
    if s[0] != '0' || (s[1] != 'x' && s[1] != 'X') {
      return false;
    }
    var i := 2;
    while i < len
      invariant 2 <= i <= len
      invariant forall k :: 2 <= k < i ==> IsHex(s[k])
    {
      if !IsHex(s[i]) {
        return false;
      }
      i := i + 1;
    }
    return true;
  }

  method OctalStr(s: seq<char>) returns (b: bool)
    ensures b == IsOctalStr(s)
  {
    var len := |s|;
    if len < 2 {
      return false;
    }
    if s[0] != '0' {
      return false;
    }
    var i := 1;
    while i < len
      invariant 1 <= i <= len
      invariant forall k :: 1 <= k < i ==> IsOctal(s[k])
    {
      if !IsOctal(s[i]) {
        return false;
      }
      i := i + 1;
    }
    return true;
  }

  method IntStr(s: seq<char>) returns (b: bool)
    ensures b == IsIntStr(s)
  {
    var len := |s|;
    if len > 1 && s[0] == '0' {
      return false;
    }
    var i := 0;
    while i < len
      invariant 0 <= i <= len
      invariant forall k :: 0 <= k < i ==> IsDigit(s[k])
    {
      if !IsDigit(s[i]) {
        return false;
      }
      i := i + 1;
    }
    return true;
  }

  method FloatStr(s: seq<char>) returns (b: bool)
    ensures b == IsFloatStr(s)
  {
    var dotIdx := -1;
    var len := |s|;
    if len < 2 {
      return false;
    }
    if s[0] == '0' && s[1] != '.' {
      return false;
    }
    var i := 0;
    while i < len
      invariant 0 <= i <= len
      invariant forall k :: 0 <= k < i ==> s[k] == '.' || IsDigit(s[k])
      invariant -1 <= dotIdx < i
      invariant dotIdx < 0 ==> forall k :: 0 <= k < i ==> s[k] != '.'
      invariant dotIdx >= 0 ==> s[dotIdx] == '.' && forall k :: 0 <= k < i && k != dotIdx ==> s[k] != '.'
    {
      if s[i] != '.' && !IsDigit(s[i]) {
        return false;
      }
      if s[i] == '.' {
        if dotIdx >= 0 {
          assert !IsOnlyDot(s, dotIdx) && !IsOnlyDot(s, i);
          assert forall k :: IsOnlyDot(s, k) ==> k == dotIdx || k == i;
          return false;
        }
        dotIdx := i;
      }
      i := i + 1;
    }
    if dotIdx >= 0 {
      assert IsOnlyDot(s, dotIdx);
    }
    return dotIdx >= 0;
  }

  // ---------------------------------------------------------------------------
  // Relations between the grammars
  // ---------------------------------------------------------------------------

  /** A string of length two or more starting with '0' is never a decimal integer,
      and every octal numeral is such a string. */
  lemma OctalNotInt(s: seq<char>)
    ensures !(IsOctalStr(s) && IsIntStr(s))
  {
  }

  /** A decimal integer has no '.', a float has one. */
  lemma IntNotFloat(s: seq<char>)
    ensures !(IsIntStr(s) && IsFloatStr(s))
  {
  }

  /** A hexadecimal numeral has an 'x' or 'X' in second place, which no other
      grammar admits. */
  lemma HexExcludesOthers(s: seq<char>)
    ensures IsHexStr(s) ==> !IsOctalStr(s) && !IsIntStr(s) && !IsFloatStr(s)
  {
    if IsHexStr(s) {
      assert !IsOctal(s[1]) && !IsDigit(s[1]) && s[1] != '.';
    }
  }

  /** Among hexadecimal, octal, decimal integer and float, at most one holds. */
  lemma AtMostOneNumeral(s: seq<char>)
    ensures (if IsHexStr(s) then 1 else 0) + (if IsOctalStr(s) then 1 else 0)
          + (if IsIntStr(s) then 1 else 0) + (if IsFloatStr(s) then 1 else 0) <= 1
  {
    OctalNotInt(s);
    IntNotFloat(s);
    HexExcludesOthers(s);
  }

  /** Spot values: "09" is no numeral, "017" only octal, "0.5" a float, "0x1F"
      hexadecimal, "42" a decimal integer, and the empty string counts as an integer. */
  lemma SpotValues()
    ensures !IsOctalStr("09") && !IsIntStr("09") && !IsFloatStr("09") && !IsHexStr("09")
    ensures IsOctalStr("017") && !IsIntStr("017") && !IsFloatStr("017") && !IsHexStr("017")
    ensures IsFloatStr("0.5") && !IsOctalStr("0.5") && !IsIntStr("0.5") && !IsHexStr("0.5")
    ensures IsHexStr("0x1F") && IsIntStr("42") && IsIntStr("")
  {
    assert !IsOctal("09"[1]);
    assert IsOnlyDot("0.5", 1);
    assert !IsDigit("0.5"[1]);
    forall k | 0 <= k < 3 ensures "017"[k] != '.' { }
  }

  // ---------------------------------------------------------------------------
  // mystrscpy
  // ---------------------------------------------------------------------------

  const NUL: char := 0 as char

  /** Index of the first NUL of s, or |s| when there is none. */
  function NulIndex(s: seq<char>): (n: nat)
    ensures n <= |s|
    ensures forall i :: 0 <= i < n ==> s[i] != NUL
    ensures n < |s| ==> s[n] == NUL
  {
    if s == [] || s[0] == NUL then 0 else 1 + NulIndex(s[1..])
  }

  /** The C string a buffer holds: everything before its first NUL. */
  function CString(s: seq<char>): (c: seq<char>)
    ensures NUL !in c
    ensures c <= s
  {
    s[..NulIndex(s)]
  }

  /** mystrscpy reads src up to its first NUL, or, for a positive size, up to
      size-1 characters; those reads must stay inside src. A negative size
      never counts down to zero, so then only the NUL stops the reads. */
  predicate SourceReadable(src: seq<char>, size: int)
  {
    size == 0 || (0 < size <= |src| + 1) || NulIndex(src) < |src|
  }

  /** The number of characters mystrscpy copies when size is not 0: up to
      the first NUL of src, and never more than size-1 when size is positive. */
  function CopyCount(src: seq<char>, size: int): (n: nat)
    requires size != 0 && SourceReadable(src, size)
    ensures n <= |src|
    ensures size > 0 ==> n <= size - 1
    ensures forall i :: 0 <= i < n ==> src[i] != NUL
    ensures (size < 0 || n < size - 1) ==> n < |src| && src[n] == NUL
  {
    if size < 0 || NulIndex(src) < size - 1 then NulIndex(src) else size - 1
  }

  /** mystrscpy writes dst[0..n]; that must stay inside dst. */
  predicate TargetFits(dst: seq<char>, src: seq<char>, size: int)
  {
    SourceReadable(src, size) && (size == 0 || CopyCount(src, size) < |dst|)
  }

  /** The buffer after mystrscpy(dst, src, size). */
  function StrSCpy(dst: seq<char>, src: seq<char>, size: int): (r: seq<char>)
    requires TargetFits(dst, src, size)
    ensures |r| == |dst|
    ensures size == 0 ==> r == dst
    ensures size != 0 ==> var n := CopyCount(src, size);
      && (forall i :: 0 <= i < n ==> r[i] == src[i])
      && r[n] == NUL
      && (forall i :: n < i < |dst| ==> r[i] == dst[i])
  {
    if size == 0 then dst
    else
      var n := CopyCount(src, size);
      src[..n] + [NUL] + dst[n + 1..]
  }

  /** What the copy leaves in dst as a C string: the C string of src, cut to
      at most size-1 characters when size is positive; with a positive size
      nothing at or beyond index size is written. */
  lemma StrSCpyTruncates(dst: seq<char>, src: seq<char>, size: int)
    requires size != 0 && TargetFits(dst, src, size)
    ensures var c := CString(src);
      CString(StrSCpy(dst, src, size)) == if size < 0 || |c| <= size - 1 then c else c[..size - 1]
    ensures size > 0 ==> forall i :: size <= i < |dst| ==> StrSCpy(dst, src, size)[i] == dst[i]
  {
    var r := StrSCpy(dst, src, size);
    var n := CopyCount(src, size);
    assert NulIndex(r) == n by {
      assert r[n] == NUL;
      assert forall i :: 0 <= i < n ==> r[i] == src[i];
    }
    if size < 0 || n < size - 1 {
      assert NulIndex(src) == n;
    } else {
      assert NulIndex(src) >= n;
    }
  }

  /** mystrscpy: with size 0 nothing is written; otherwise the characters of
      src before its first NUL are copied, at most size-1 of them when size is
      positive, and a NUL follows. */
  method MyStrSCpy(dst: array<char>, src: seq<char>, size: int)
    requires TargetFits(dst[..], src, size)
    modifies dst
    ensures dst[..] == StrSCpy(old(dst[..]), src, size)
  {
    if size == 0 {
      return;
    }
    ghost var n := CopyCount(src, size);
    var left := size;
    var s, d := 0, 0;
    left := left - 1;
    while left != 0
      invariant 0 <= d == s <= n
      invariant left == size - 1 - d
      invariant forall k :: 0 <= k < d ==> dst[k] == src[k]
      invariant forall k :: d <= k < dst.Length ==> dst[k] == old(dst[k])
      decreases n - d
    {
      var c := src[s];
      s := s + 1;
      if c == NUL {
        break;
      }
      dst[d] := c;
      d := d + 1;
      left := left - 1;
    }
    assert d == n;
    dst[d] := NUL;
    ghost var r := StrSCpy(old(dst[..]), src, size);
    assert forall k :: 0 <= k < dst.Length ==> dst[k] == r[k];
  }
}
