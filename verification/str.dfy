/** The search and comparison primitives of src/string.cpp.

    A C string is modelled as the sequence of characters before its
    terminator, so it never holds '\0'. Lengths are `uint32_t` in the
    source; `NPOS` (UINT32_MAX) is both the "not found" result and the
    length argument meaning "use strlen". */
module Str {
  import opened Wrappers

  const NPOS: int := 0xFFFF_FFFF

  predicate NoNul(s: string) {
    '\0' !in s
  }

  /** A length argument: NPOS, or a length that does not reach past the string. */
  predicate LengthArg(len: int, s: string) {
    |s| < NPOS && (len == NPOS || 0 <= len <= |s|)
  }

  /** The length the source works with once NPOS is replaced by strlen. */
  function Effective(len: int, s: string): (n: nat)
    requires LengthArg(len, s)
    ensures n <= |s|
  {
    if len == NPOS then |s| else len
  }

  /** The character strncmp reads at index k: past the end it meets the terminator. */
  function CharAt(s: string, k: nat): char {
    if k < |s| then s[k] else '\0'
  }

  /** `strncmp(a + k, b + k, n) == 0`: compare at most n characters and stop
      early once both strings reach their terminator together. */
  function StrnEqFrom(a: string, b: string, k: nat, n: nat): bool
    decreases n
  {
    n == 0 || (CharAt(a, k) == CharAt(b, k) && (CharAt(a, k) == '\0' || StrnEqFrom(a, b, k + 1, n - 1)))
  }

  /** `strncmp(a, b, n) == 0`. */
  function StrnEq(a: string, b: string, n: nat): bool {
    StrnEqFrom(a, b, 0, n)
  }

  /** When the right-hand string holds n characters and no terminator among
      them, strncmp agrees with equality of the first n characters. */
  lemma {:induction false} StrnEqFromIsSliceEq(a: string, b: string, k: nat, n: nat)
    requires NoNul(b) && k + n <= |b| && k <= |a|
    ensures StrnEqFrom(a, b, k, n) <==> (k + n <= |a| && a[k..k + n] == b[k..k + n])
    decreases n
  {
    if n > 0 {
      assert b[k] in b;
      assert CharAt(b, k) != '\0';
      if k == |a| {
        assert CharAt(a, k) == '\0';
      } else {
        StrnEqFromIsSliceEq(a, b, k + 1, n - 1);
      }
      if k + n <= |a| {
        assert a[k..k + n] == [a[k]] + a[k + 1..k + n];
        assert b[k..k + n] == [b[k]] + b[k + 1..k + n];
        assert a[k..k + n] == b[k..k + n] <==> a[k] == b[k] && a[k + 1..k + n] == b[k + 1..k + n];
      }
    }
  }

  lemma StrnEqIsPrefixEq(a: string, b: string, n: nat)
    requires NoNul(b) && n <= |b|
    ensures StrnEq(a, b, n) <==> (n <= |a| && a[..n] == b[..n])
  {
    StrnEqFromIsSliceEq(a, b, 0, n);
  }

  /** b occurs in s at index i. */
  predicate MatchAt(s: string, b: string, i: int) {
    0 <= i && i + |b| <= |s| && s[i..i + |b|] == b
  }

  /** The smallest index at or after i where b occurs in s, or NPOS. */
  function IndexFrom(s: string, b: string, i: nat): (r: int)
    requires |s| < NPOS
    ensures r == NPOS || (i <= r && MatchAt(s, b, r))
    decreases |s| + 1 - i
  {
    if i + |b| > |s| then NPOS
    else if s[i..i + |b|] == b then i
    else IndexFrom(s, b, i + 1)
  }

  lemma {:induction false} IndexFromSpec(s: string, b: string, i: nat)
    requires |s| < NPOS
    ensures var r := IndexFrom(s, b, i);
      forall j :: i <= j && (r == NPOS || j < r) ==> !MatchAt(s, b, j)
    decreases |s| + 1 - i
  {
    if i + |b| <= |s| && s[i..i + |b|] != b {
      IndexFromSpec(s, b, i + 1);
    }
  }

  /** The largest index below i where b occurs in s, or NPOS. */
  function LastBefore(s: string, b: string, i: nat): (r: int)
    requires i <= NPOS
    ensures r == NPOS || 0 <= r < i
    decreases i
  {
    if i == 0 then NPOS
    else if MatchAt(s, b, i - 1) then i - 1
    else LastBefore(s, b, i - 1)
  }

  lemma {:induction false} LastBeforeSpec(s: string, b: string, i: nat)
    requires i <= NPOS
    ensures var r := LastBefore(s, b, i);
      && (r == NPOS || (r < i && MatchAt(s, b, r)))
      && forall j :: (r == NPOS || r < j) && j < i ==> !MatchAt(s, b, j)
    decreases i
  {
    if i > 0 && !MatchAt(s, b, i - 1) {
      LastBeforeSpec(s, b, i - 1);
    }
  }

  /** The first occurrence of b in s, or NPOS. */
  function IndexOf(s: string, b: string): int
    requires |s| < NPOS
  {
    IndexFrom(s, b, 0)
  }

  /** The last occurrence of b in s, or NPOS. */
  function LastIndexOf(s: string, b: string): int
    requires |s| < NPOS
  {
    LastBefore(s, b, |s| + 1)
  }

  lemma IndexOfSpec(s: string, b: string)
    requires |s| < NPOS
    ensures var r := IndexOf(s, b);
      && (r == NPOS <==> forall j :: !MatchAt(s, b, j))
      && (r != NPOS ==> MatchAt(s, b, r) && forall j :: 0 <= j < r ==> !MatchAt(s, b, j))
  {
    IndexFromSpec(s, b, 0);
  }

  lemma LastIndexOfSpec(s: string, b: string)
    requires |s| < NPOS
    ensures var r := LastIndexOf(s, b);
      && (r == NPOS <==> forall j :: !MatchAt(s, b, j))
      && (r != NPOS ==> MatchAt(s, b, r) && forall j :: r < j ==> !MatchAt(s, b, j))
  {
    LastBeforeSpec(s, b, |s| + 1);
    forall j | j > |s| ensures !MatchAt(s, b, j) { }
  }

  /** A single-character `find` that fails means the character is absent. */
  lemma IndexOfAbsent(s: string, c: char)
    requires |s| < NPOS && IndexOf(s, [c]) == NPOS
    ensures c !in s
  {
    IndexOfSpec(s, [c]);
    forall k | 0 <= k < |s|
      ensures s[k] != c
    {
      assert !MatchAt(s, [c], k);
      assert s[k..k + 1] == [s[k]];
    }
  }

  /** A single character that is absent is not found. */
  lemma LastIndexOfAbsent(s: string, c: char)
    requires |s| < NPOS && c !in s
    ensures LastIndexOf(s, [c]) == NPOS
  {
    forall j ensures !MatchAt(s, [c], j) {
      if 0 <= j < |s| {
        assert s[j] in s;
        assert s[j..j + 1][0] == s[j];
      }
    }
    LastIndexOfSpec(s, [c]);
  }

  /** A single character that occurs is found at one of its occurrences. */
  lemma LastIndexOfPresent(s: string, c: char)
    requires |s| < NPOS && c in s
    ensures var r := LastIndexOf(s, [c]); 0 <= r < |s| && s[r] == c && c !in s[r + 1..]
  {
    var k :| 0 <= k < |s| && s[k] == c;
    assert s[k..k + 1] == [c];
    assert MatchAt(s, [c], k);
    LastIndexOfSpec(s, [c]);
    var r := LastIndexOf(s, [c]);
    assert s[r] == s[r..r + 1][0];
    var tail := s[r + 1..];
    forall m | 0 <= m < |tail|
      ensures tail[m] != c
    {
      assert !MatchAt(s, [c], r + 1 + m);
      assert s[r + 1 + m..r + 1 + m + 1] == [tail[m]];
    }
  }

  /** Both cases of a single-character `rfind`. */
  lemma LastIndexOfChar(s: string, c: char)
    requires |s| < NPOS
    ensures var r := LastIndexOf(s, [c]);
      && (c !in s <==> r == NPOS)
      && (c in s ==> 0 <= r < |s| && s[r] == c && c !in s[r + 1..])
  {
    if c in s { LastIndexOfPresent(s, c); } else { LastIndexOfAbsent(s, c); }
  }

  /** The last occurrence of a character is the one with no copy after it. */
  lemma LastIndexOfCharAt(s: string, c: char, k: int)
    requires |s| < NPOS && 0 <= k < |s| && s[k] == c && c !in s[k + 1..]
    ensures LastIndexOf(s, [c]) == k
  {
    assert s[k..k + 1] == [c];
    assert MatchAt(s, [c], k);
    LastIndexOfSpec(s, [c]);
    var r := LastIndexOf(s, [c]);
    assert r != NPOS && k <= r;
    assert s[r] == s[r..r + 1][0];
    forall j | k < j < |s| ensures s[j] != c {
      assert s[k + 1..][j - k - 1] == s[j];
    }
  }

  /** `str::find`: the first index i with buf at str[i..i + buf_len),
      searching only the first str_len characters, or NPOS. The source
      demands a non-empty needle no longer than str_len + 1 (otherwise its
      unsigned loop bound wraps around). */
  method Find(str: string, buf: string, strLen: int, bufLen: int) returns (res: int)
    requires LengthArg(strLen, str) && LengthArg(bufLen, buf) && NoNul(buf)
    requires 0 < Effective(bufLen, buf) <= Effective(strLen, str) + 1
    ensures res == IndexOf(str[..Effective(strLen, str)], buf[..Effective(bufLen, buf)])
    ensures res != NPOS ==> 0 <= res && res + Effective(bufLen, buf) <= Effective(strLen, str)
    ensures res != NPOS ==> str[res..res + Effective(bufLen, buf)] == buf[..Effective(bufLen, buf)]
  {
    var sl: int := Effective(strLen, str);
    var bl: int := Effective(bufLen, buf);
    ghost var s, b := str[..sl], buf[..bl];
    IndexOfSpec(s, b);
    res := NPOS;
    var i := 0;
    while i < sl - bl + 1
      invariant 0 <= i <= sl - bl + 1
      invariant IndexFrom(s, b, i) == IndexFrom(s, b, 0)
    {
      ProbeAt(str, buf, sl, bl, i);
      if str[i] == buf[0] && StrnEq(str[i..], buf, bl) {
        res := i;
        return;
      }
      i := i + 1;
    }
  }

  /** The test both search loops make at index k: the first character,
      then strncmp over the needle's length. */
  lemma ProbeAt(str: string, buf: string, sl: nat, bl: nat, k: nat)
    requires NoNul(buf) && 0 < bl <= |buf| && sl <= |str| && k + bl <= sl
    ensures (str[k] == buf[0] && StrnEq(str[k..], buf, bl)) <==> MatchAt(str[..sl], buf[..bl], k)
  {
    StrnEqIsPrefixEq(str[k..], buf, bl);
    assert str[k..][..bl] == str[..sl][k..k + bl];
  }

  /** `str::rfind`: the last index i with buf at str[i..i + buf_len),
      searching only the first str_len characters, or NPOS. */
  method RFind(str: string, buf: string, strLen: int, bufLen: int) returns (res: int)
    requires LengthArg(strLen, str) && LengthArg(bufLen, buf) && NoNul(buf)
    requires 0 < Effective(bufLen, buf) <= Effective(strLen, str) + 1
    ensures res == LastIndexOf(str[..Effective(strLen, str)], buf[..Effective(bufLen, buf)])
    ensures res != NPOS ==> 0 <= res && res + Effective(bufLen, buf) <= Effective(strLen, str)
    ensures res != NPOS ==> str[res..res + Effective(bufLen, buf)] == buf[..Effective(bufLen, buf)]
  {
    var sl: int := Effective(strLen, str);
    var bl: int := Effective(bufLen, buf);
    ghost var s, b := str[..sl], buf[..bl];
    res := NPOS;
    var i := sl - bl + 1;
    LastBeforeFromLastStart(s, b);
    while i > 0
      invariant 0 <= i <= sl - bl + 1
      invariant LastBefore(s, b, i) == LastIndexOf(s, b)
    {
      RFindProbe(str, buf, sl, bl, i);
      if str[i - 1] == buf[0] && StrnEq(str[i - 1..], buf, bl) {
        res := i - 1;
        return;
      }
      ghost var next := LastBefore(s, b, i - 1);
      assert next == LastIndexOf(s, b);
      i := i - 1;
    }
  }

  /** One probe of the `rfind` loop, at index i - 1: a hit is the last
      match below i, a miss leaves the search to the indices below. */
  lemma RFindProbe(str: string, buf: string, sl: nat, bl: nat, i: nat)
    requires NoNul(buf) && 0 < bl <= |buf| && sl <= |str| && sl < NPOS && 0 < i && i - 1 + bl <= sl
    ensures (str[i - 1] == buf[0] && StrnEq(str[i - 1..], buf, bl)) ==>
      LastBefore(str[..sl], buf[..bl], i) == i - 1 && str[i - 1..i - 1 + bl] == buf[..bl]
    ensures !(str[i - 1] == buf[0] && StrnEq(str[i - 1..], buf, bl)) ==>
      LastBefore(str[..sl], buf[..bl], i) == LastBefore(str[..sl], buf[..bl], i - 1)
  {
    ProbeAt(str, buf, sl, bl, i - 1);
    SliceOfPrefix(str, sl, i - 1, i - 1 + bl);
  }

  /** A slice inside a prefix is the same slice of the whole. */
  lemma SliceOfPrefix(str: string, n: nat, lo: nat, hi: nat)
    requires lo <= hi <= n <= |str|
    ensures str[..n][lo..hi] == str[lo..hi]
  {
  }

  /** No match can start in the last |b| - 1 positions. */
  lemma LastBeforeFromLastStart(s: string, b: string)
    requires |s| < NPOS && 0 < |b| <= |s| + 1
    ensures LastBefore(s, b, |s| - |b| + 1) == LastIndexOf(s, b)
  {
    forall j | |s| - |b| + 1 <= j <= |s| ensures !MatchAt(s, b, j) { }
    LastBeforeSkips(s, b, |s| - |b| + 1, |s| + 1);
  }

  /** Stepping back over positions holding no match leaves the search result unchanged. */
  lemma {:induction false} LastBeforeSkips(s: string, b: string, lo: nat, hi: nat)
    requires lo <= hi <= NPOS
    requires forall j :: lo <= j < hi ==> !MatchAt(s, b, j)
    ensures LastBefore(s, b, hi) == LastBefore(s, b, lo)
    decreases hi - lo
  {
    if lo < hi {
      LastBeforeSkips(s, b, lo, hi - 1);
    }
  }

  /** `str::starts_with(str, buf)`: true exactly when buf is a prefix of str. */
  function StartsWith(str: string, buf: string): (r: bool)
    requires NoNul(buf)
    ensures r <==> |buf| <= |str| && str[..|buf|] == buf
  {
    StrnEqIsPrefixEq(str, buf, |buf|);
    StrnEq(str, buf, |buf|)
  }

  /** `str::starts_with(str, buf, buf_len)`: the first buf_len characters of
      buf are a prefix of str. */
  function StartsWithN(str: string, buf: string, bufLen: int): (r: bool)
    requires LengthArg(bufLen, buf) && NoNul(buf)
    ensures var n := Effective(bufLen, buf); r <==> n <= |str| && str[..n] == buf[..n]
  {
    var n := Effective(bufLen, buf);
    StrnEqIsPrefixEq(str, buf, n);
    StrnEq(str, buf, n)
  }

  /** `str::ends_with`: compares the last buf_len of the first str_len
      characters with buf; the source demands buf_len <= str_len. */
  function EndsWith(str: string, buf: string, strLen: int, bufLen: int): (r: bool)
    requires LengthArg(strLen, str) && LengthArg(bufLen, buf) && NoNul(buf)
    requires Effective(bufLen, buf) <= Effective(strLen, str)
    ensures var sl, bl := Effective(strLen, str), Effective(bufLen, buf);
      r <==> str[sl - bl..sl] == buf[..bl]
  {
    var sl, bl := Effective(strLen, str), Effective(bufLen, buf);
    StrnEqIsPrefixEq(str[sl - bl..], buf, bl);
    assert str[sl - bl..][..bl] == str[sl - bl..sl];
    StrnEq(str[sl - bl..], buf, bl)
  }

  /** `ends_with` with both lengths defaulted to strlen. */
  function EndsWithStr(str: string, buf: string): (r: bool)
    requires |str| < NPOS && |buf| <= |str| && NoNul(buf)
    ensures r <==> str[|str| - |buf|..] == buf
  {
    assert str[|str| - |buf|..|str|] == str[|str| - |buf|..];
    assert buf[..|buf|] == buf;
    EndsWith(str, buf, NPOS, NPOS)
  }

  // ------------------------------------------------ facts about strings

  lemma Assoc3(a: string, b: string, c: string)
    ensures (a + b) + c == a + (b + c)
  {
  }

  lemma SliceParts(a: string, b: string, c: string)
    ensures (a + b + c)[..|a|] == a && (a + b + c)[|a|..|a| + |b|] == b && (a + b + c)[|a| + |b|..] == c
  {
  }

  lemma Assoc4(a: string, b: string, c: string, d: string)
    ensures ((a + b) + c) + d == a + ((b + c) + d)
  {
  }

  /** b is the end of a. */
  predicate IsSuffix(a: string, b: string) {
    |b| <= |a| && a[|a| - |b|..] == b
  }

  lemma SuffixOfAppend(a: string, b: string)
    ensures IsSuffix(a + b, b)
  {
    assert (a + b)[|a + b| - |b|..] == b;
  }

  /** A suffix stays a suffix, with what follows it, inside a longer string. */
  lemma SuffixWrapped(a: string, b: string, x: string, c: string)
    requires IsSuffix(b, x)
    ensures IsSuffix(a + b + c, x + c)
  {
    var w := a + b + c;
    assert w[|w| - |x + c|..] == b[|b| - |x|..] + c;
  }

  lemma SuffixTransitive(a: string, b: string, c: string)
    requires IsSuffix(a, b) && IsSuffix(b, c)
    ensures IsSuffix(a, c)
  {
    assert a[|a| - |c|..] == b[|b| - |c|..];
  }

  /** A match inside the middle part is a match in the whole. */
  lemma MatchInMiddle(a: string, b: string, c: string, x: string, k: int)
    requires MatchAt(b, x, k)
    ensures MatchAt(a + b + c, x, |a| + k)
  {
    assert (a + b + c)[|a| + k..|a| + k + |x|] == b[k..k + |x|];
  }

  /** A match inside a match. */
  lemma MatchWithin(a: string, b: string, x: string, k1: int, k2: int)
    requires 0 <= k1 && k1 + |b| <= |a| && a[k1..k1 + |b|] == b
    requires 0 <= k2 && k2 + |x| <= |b| && b[k2..k2 + |x|] == x
    ensures MatchAt(a, x, k1 + k2)
  {
    var w := a[k1 + k2..k1 + k2 + |x|];
    forall t | 0 <= t < |x|
      ensures w[t] == x[t]
    {
      assert x[t] == b[k2..k2 + |x|][t] == b[k2 + t];
      assert b[k2 + t] == a[k1..k1 + |b|][k2 + t] == a[k1 + k2 + t];
    }
  }

  /** A piece placed between two others is found in the whole. */
  lemma SliceInMiddle(a: string, b: string, c: string, x: string, k: nat)
    requires k + |x| <= |b| && b[k..k + |x|] == x
    ensures MatchAt(a + b + c, x, |a| + k)
  {
    assert (a + b + c)[|a| + k..|a| + k + |x|] == b[k..k + |x|];
  }

  /** What one run of a concatenation produced is found in the text of the
      concatenation, whatever surrounds it. */
  lemma RunInConcat(a: string, runs: seq<Run<string>>, c: string, i: nat)
    requires Concat(runs).Done? && i < |runs|
    ensures runs[i].Done?
    ensures exists k :: MatchAt(a + Concat(runs).value + c, runs[i].value, k)
  {
    ConcatPart(runs, i);
    SliceInMiddle(a, Concat(runs).value, c, runs[i].value, |Concat(runs[..i]).value|);
  }
}
