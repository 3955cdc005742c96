/** `unesc_str` of src/generator.cpp: the escape table used when text is
    written between double quotes in the compile database. */
module Escape {
  import opened Wrappers

  /** The eleven characters the table rewrites. */
  predicate Special(c: char) {
    c in {'\U{7}', '\U{8}', '\U{C}', '\n', '\r', '\t', '\U{B}', '\\', '\'', '"', '?'}
  }

  /** The character written after the backslash for a special character. */
  function Letter(c: char): (l: char)
    requires Special(c)
  {
    match c
    case '\U{7}' => 'a'
    case '\U{8}' => 'b'
    case '\U{C}' => 'f'
    case '\n' => 'n'
    case '\r' => 'r'
    case '\t' => 't'
    case '\U{B}' => 'v'
    case _ => c
  }

  /** The letters that may follow a backslash in escaped text. */
  predicate EscapeLetter(l: char) {
    l in {'a', 'b', 'f', 'n', 'r', 't', 'v', '\\', '\'', '"', '?'}
  }

  /** The character a backslash and letter stand for: the inverse of Letter. */
  function FromLetter(l: char): (c: char)
    requires EscapeLetter(l)
    ensures Special(c) && Letter(c) == l
  {
    match l
    case 'a' => '\U{7}'
    case 'b' => '\U{8}'
    case 'f' => '\U{C}'
    case 'n' => '\n'
    case 'r' => '\r'
    case 't' => '\t'
    case 'v' => '\U{B}'
    case _ => l
  }

  lemma LetterInverse(c: char)
    requires Special(c)
    ensures EscapeLetter(Letter(c)) && FromLetter(Letter(c)) == c
  {
  }

  /** What one input character becomes. */
  function EscapeChar(c: char): (r: string)
    ensures Special(c) ==> r == ['\\', Letter(c)] && EscapeLetter(r[1])
    ensures !Special(c) ==> r == [c]
  {
    if Special(c) then ['\\', Letter(c)] else [c]
  }

  /** The whole escaped text, character by character in order. */
  function Escaped(s: string): string
  {
    if |s| == 0 then "" else Escaped(s[..|s| - 1]) + EscapeChar(s[|s| - 1])
  }

  /** The number of characters of s the table rewrites. */
  function CountSpecial(s: string): nat
  {
    if |s| == 0 then 0 else CountSpecial(s[..|s| - 1]) + (if Special(s[|s| - 1]) then 1 else 0)
  }

  /** Reads escaped text back: a backslash followed by a table letter is one
      character, anything else stands for itself. */
  function Unescaped(t: string): string
  {
    if |t| == 0 then ""
    else if t[0] == '\\' && |t| >= 2 && EscapeLetter(t[1]) then [FromLetter(t[1])] + Unescaped(t[2..])
    else [t[0]] + Unescaped(t[1..])
  }

  /** What `unesc_str` returns. The buffer holds 2*len characters and the
      terminator is written after the escaped text, at index
      len + CountSpecial(s): outside the buffer exactly when every character
      is rewritten, the empty string included. */
  function UnescResult(s: string): (r: Run<string>)
    ensures r.Stuck? <==> CountSpecial(s) == |s|
    ensures r.Done? ==> r.value == Escaped(s)
  {
    if CountSpecial(s) == |s| then Stuck(MemoryFault) else Done(Escaped(s))
  }

  /** `unesc_str`: fills a buffer of 2*len characters through a moving
      position, one table entry or one copied character per input character,
      then terminates it. */
  method UnescStr(s: string) returns (r: Run<string>)
    ensures r == UnescResult(s)
  {
    var buffer := new char[2 * |s|];
    var pos := 0;
    for i := 0 to |s|
      invariant pos == i + CountSpecial(s[..i]) <= 2 * i
      invariant buffer[..pos] == Escaped(s[..i])
    {
      assert s[..i + 1][..i] == s[..i];
      var c := s[i];
      if Special(c) {
        buffer[pos] := '\\';
        buffer[pos + 1] := Letter(c);
        pos := pos + 2;
      } else {
        buffer[pos] := c;
        pos := pos + 1;
      }
    }
    assert s[..|s|] == s;
    if pos == buffer.Length {
      // The terminator would be written past the end of the buffer.
      return Stuck(MemoryFault);
    }
    r := Done(buffer[..pos]);
  }

  /** Escaping distributes over concatenation. */
  lemma {:induction false} EscapedAppend(a: string, b: string)
    ensures Escaped(a + b) == Escaped(a) + Escaped(b)
    decreases |b|
  {
    if |b| > 0 {
      var b' := b[..|b| - 1];
      assert (a + b)[..|a + b| - 1] == a + b';
      EscapedAppend(a, b');
    } else {
      assert a + b == a;
    }
  }

  /** Output length = input length + number of rewritten characters. */
  lemma {:induction false} EscapedLength(s: string)
    ensures |Escaped(s)| == |s| + CountSpecial(s)
    ensures CountSpecial(s) <= |s|
  {
    if |s| > 0 {
      EscapedLength(s[..|s| - 1]);
    }
  }

  /** Text holding no special character is copied unchanged. */
  lemma {:induction false} EscapedPlain(s: string)
    requires forall i :: 0 <= i < |s| ==> !Special(s[i])
    ensures Escaped(s) == s
  {
    if |s| > 0 {
      EscapedPlain(s[..|s| - 1]);
      assert s[..|s| - 1] + [s[|s| - 1]] == s;
    }
  }

  /** Reading the escaped text back gives the original: the table is injective. */
  lemma {:induction false} UnescapedEscaped(s: string)
    ensures Unescaped(Escaped(s)) == s
    decreases |s|
  {
    if |s| > 0 {
      var c, rest := s[0], s[1..];
      assert s == [c] + rest;
      EscapedAppend([c], rest);
      assert Escaped([c]) == EscapeChar(c) by {
        assert [c][..0] == "";
      }
      var t := EscapeChar(c) + Escaped(rest);
      UnescapedEscaped(rest);
      if Special(c) {
        LetterInverse(c);
        assert t[0] == '\\' && t[1] == Letter(c) && t[2..] == Escaped(rest);
        assert Unescaped(t) == [FromLetter(t[1])] + Unescaped(t[2..]);
      } else {
        assert t[0] == c && t[1..] == Escaped(rest);
        assert c != '\\';
        assert Unescaped(t) == [c] + Unescaped(t[1..]);
      }
    }
  }
}
