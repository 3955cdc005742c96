/** `resolve_path_from_script` and `resolve_path_to_script` of
    src/lua_env.cpp: paths written in a build script, made relative to the
    working directory or to the script.

    The script path is the `short_src` Lua reports for the running script,
    the working directory what `fs::get_cwd` returns; both are parameters.
    The result buffer grows by doubling a capacity that starts at the
    length of `path`, so a zero length that must grow never stops. */
module LuaPaths {
  import opened Wrappers
  import opened Str

  predicate IsSep(c: char) {
    c == '/' || c == '\\'
  }

  /** How many `/` and `\` characters s holds. */
  function Seps(s: string): nat {
    if |s| == 0 then 0 else Seps(s[..|s| - 1]) + (if IsSep(s[|s| - 1]) then 1 else 0)
  }

  function Repeat(s: string, n: nat): string {
    if n == 0 then "" else Repeat(s, n - 1) + s
  }

  /** Where the script path relative to the working directory starts: after
      `./` or `.\`, after the working directory and the separator that
      follows it, or nowhere when the script lies elsewhere. */
  function RelativeStart(script: string, cwd: string): (r: Option<nat>)
    requires NoNul(cwd) && 0 < |cwd| < NPOS
    ensures r.None? <==> !(StartsWith(script, "./") || StartsWith(script, ".\\") || StartsWith(script, cwd))
    ensures r.Some? ==> r.value <= |script| + 1
  {
    if StartsWith(script, "./") || StartsWith(script, ".\\") then Some(2)
    else if StartsWith(script, cwd) then
      Some(if EndsWithStr(cwd, "/") || EndsWithStr(cwd, "\\") then |cwd| else |cwd| + 1)
    else None
  }

  /** The capacity the buffer starts with: the path length. */
  function Capacity(path: string, len: int): int {
    if len == NPOS then |path| else len
  }

  /** How much of path `strncpy` copies (it stops at the terminator). */
  function Copied(path: string, len: int): (n: nat)
    requires 0 <= len
    ensures n <= |path|
  {
    if len == NPOS || len > |path| then |path| else len
  }

  /** The directory part of a relative script path: through its last `/`,
      or, when it has none, through its last `\`; empty without either. */
  function DirPart(rel: string): (d: string)
    requires |rel| < NPOS
    ensures |d| <= |rel|
  {
    LastIndexOfChar(rel, '/');
    LastIndexOfChar(rel, '\\');
    var k := if LastIndexOf(rel, "/") != NPOS then LastIndexOf(rel, "/") else LastIndexOf(rel, "\\");
    if k == NPOS then "" else rel[..k + 1]
  }

  /** `resolve_path_from_script`: the script's own directory, then path. */
  function FromScript(script: string, cwd: string, path: string, len: int): Run<string>
    requires NoNul(cwd) && 0 < |cwd| < NPOS && |script| < NPOS && 0 <= len <= NPOS
  {
    match RelativeStart(script, cwd)
    case None => Done(path)
    case Some(pos) =>
      if pos > |script| then Stuck(MemoryFault)
      else if |DirPart(script[pos..])| > 0 && Capacity(path, len) == 0 then Stuck(Hangs)
      else Done(DirPart(script[pos..]) + path[..Copied(path, len)])
  }

  /** `resolve_path_to_script`: one `../` per directory level of the
      script, then path. */
  function ToScript(script: string, cwd: string, path: string, len: int): Run<string>
    requires NoNul(cwd) && 0 < |cwd| < NPOS && |script| < NPOS && 0 <= len <= NPOS
  {
    match RelativeStart(script, cwd)
    case None => Done(path)
    case Some(pos) =>
      if pos > |script| then Stuck(MemoryFault)
      else if Seps(script[pos..]) > 0 && Capacity(path, len) == 0 then Stuck(Hangs)
      else Done(Repeat("../", Seps(script[pos..])) + path[..Copied(path, len)])
  }

  /** `pos += find_pos + 1` in 32 bits: a failed search (NPOS) adds nothing. */
  function Advance(pos: nat, fp: int): nat {
    (pos + fp + 1) % 0x1_0000_0000
  }

  // ---------------------------------------------------------------- methods

  /** `while (capacity < need) capacity *= 2;` for a capacity that is not zero. */
  method Grow(cap: int, need: int) returns (c: int)
    requires cap > 0
    ensures c >= need && c >= cap
  {
    c := cap;
    while c < need
      invariant c >= cap
      decreases need - c
    {
      c := c * 2;
    }
  }

  /** `rfind` of `/`, then of `\` when there is none: where the directory
      part ends. */
  method RFindSeparator(rest: string) returns (fp: int)
    requires |rest| < NPOS
    ensures fp == NPOS ==> DirPart(rest) == ""
    ensures fp != NPOS ==> 0 <= fp < |rest| && DirPart(rest) == rest[..fp + 1]
  {
    assert rest[..|rest|] == rest && "/"[..1] == "/" && "\\"[..1] == "\\";
    LastIndexOfChar(rest, '/');
    LastIndexOfChar(rest, '\\');
    fp := RFind(rest, "/", NPOS, NPOS);
    if fp == NPOS {
      fp := RFind(rest, "\\", NPOS, NPOS);
    }
  }

  /** `find` of `/`, then of `\` when there is none. */
  method FindSeparator(rest: string) returns (fp: int)
    requires |rest| < NPOS
    ensures fp == NPOS ==> '/' !in rest && '\\' !in rest
    ensures fp != NPOS ==> 0 <= fp < |rest| && IsSep(rest[fp])
  {
    assert rest[..|rest|] == rest && "/"[..1] == "/" && "\\"[..1] == "\\";
    fp := Find(rest, "/", NPOS, NPOS);
    if fp == NPOS {
      IndexOfAbsent(rest, '/');
      fp := Find(rest, "\\", NPOS, NPOS);
      if fp == NPOS {
        IndexOfAbsent(rest, '\\');
      }
    }
  }

  method ResolvePathFromScript(script: string, cwd: string, path: string, len: int) returns (r: Run<string>)
    requires NoNul(cwd) && 0 < |cwd| < NPOS && |script| < NPOS && |path| < NPOS && 0 <= len <= NPOS
    ensures r == FromScript(script, cwd, path, len)
  {
    var n := if len == NPOS then |path| else len;
    var cap := n;
    var start := RelativeStart(script, cwd);
    if start.None? {
      return Done(path);
    }
    var pos := start.value;
    if pos > |script| {
      // the searches below would start past the terminator
      return Stuck(MemoryFault);
    }
    var rest := script[pos..];
    var fp := RFindSeparator(rest);
    var res := "";
    if fp != NPOS {
      if cap < |res| + fp + 1 + n {
        if cap == 0 {
          return Stuck(Hangs);
        }
        cap := Grow(cap, |res| + fp + 1 + n);
      }
      res := res + rest[..fp + 1];
    }
    // with nothing copied yet the capacity already holds the path, so the
    // source's growth check on the other branch never fires
    assert res == DirPart(rest);
    res := res + path[..Copied(path, len)];
    r := Done(res);
  }

  method ResolvePathToScript(script: string, cwd: string, path: string, len: int) returns (r: Run<string>)
    requires NoNul(cwd) && 0 < |cwd| < NPOS && |script| < NPOS && |path| < NPOS && 0 <= len <= NPOS
    ensures r == ToScript(script, cwd, path, len)
  {
    var n := if len == NPOS then |path| else len;
    var start := RelativeStart(script, cwd);
    if start.None? {
      return Done(path);
    }
    var pos := start.value;
    if pos > |script| {
      return Stuck(MemoryFault);
    }
    var count := CountSeparators(script, pos);
    var climbed, after, cap := Climb(script, pos, count, n);
    if climbed.None? {
      return Stuck(Hangs);
    }
    var res := climbed.value;
    var rest := script[after..];
    NoSeparatorLeft(rest);
    var fp := RFindSeparator(rest);
    // every separator was stepped over, so the source's branch that copies
    // a directory part here is never taken
    assert fp == NPOS;
    if cap < |res| + n {
      cap := Grow(cap, |res| + n);
    }
    res := res + path[..Copied(path, len)];
    r := Done(res);
  }

  /** The loop counting the separators from pos on. */
  method CountSeparators(script: string, pos: nat) returns (count: nat)
    requires pos <= |script|
    ensures count == Seps(script[pos..])
  {
    count := 0;
    for i := pos to |script|
      invariant count == Seps(script[pos..i])
    {
      assert script[pos..i + 1][..i - pos] == script[pos..i];
      if script[i] == '/' || script[i] == '\\' {
        count := count + 1;
      }
    }
    assert script[pos..|script|] == script[pos..];
  }

  /** The `../` loop: one `../` per separator counted, each time stepping
      past the next separator. None when the capacity is zero and must
      grow; otherwise no separator is left after the final position. */
  method Climb(script: string, pos0: nat, count0: nat, n: int) returns (res: Option<string>, pos: nat, cap: int)
    requires pos0 <= |script| < NPOS && count0 == Seps(script[pos0..]) && n >= 0
    ensures res.None? <==> count0 > 0 && n == 0
    ensures res.Some? ==> res.value == Repeat("../", count0)
    ensures res.Some? ==> pos <= |script| && Seps(script[pos..]) == 0
    ensures res.Some? ==> cap >= n && (count0 > 0 ==> cap > 0)
  {
    var count := count0;
    var acc := "";
    cap := n;
    pos := pos0;
    while count > 0
      invariant pos <= |script| && count <= count0
      invariant acc == Repeat("../", count0 - count)
      invariant Seps(script[pos..]) <= count
      invariant cap >= n && (count < count0 ==> cap > 0)
      invariant n == 0 ==> count == count0
      invariant count == count0 ==> cap == n
      decreases count
    {
      if cap < |acc| + 3 {
        if cap == 0 {
          return None, pos, cap;
        }
        cap := Grow(cap, |acc| + 3);
      }
      acc := acc + "../";
      count := count - 1;
      var fp := FindSeparator(script[pos..]);
      SkipToSeparator(script, pos, fp);
      pos := Advance(pos, fp);
    }
    res := Some(acc);
  }

  // ------------------------------------------------------------- lemmas

  lemma {:induction false} SepsAppend(a: string, b: string)
    ensures Seps(a + b) == Seps(a) + Seps(b)
    decreases |b|
  {
    if |b| > 0 {
      assert (a + b)[..|a + b| - 1] == a + b[..|b| - 1];
      assert (a + b)[|a + b| - 1] == b[|b| - 1];
      SepsAppend(a, b[..|b| - 1]);
    } else {
      assert a + b == a;
    }
  }

  /** No separator, no count; a count of zero, no separator. */
  lemma {:induction false} SepsZero(s: string)
    ensures Seps(s) == 0 <==> ('/' !in s && '\\' !in s)
    decreases |s|
  {
    if |s| > 0 {
      SepsZero(s[..|s| - 1]);
      assert s == s[..|s| - 1] + [s[|s| - 1]];
    }
  }

  /** One step of the `../` loop: the search that succeeds passes at least
      one separator, and one that fails finds none left. */
  lemma SkipToSeparator(script: string, pos: nat, fp: int)
    requires pos <= |script| < NPOS
    requires fp == NPOS ==> '/' !in script[pos..] && '\\' !in script[pos..]
    requires fp != NPOS ==> 0 <= fp && fp + 1 <= |script[pos..]| && IsSep(script[pos..][fp])
    ensures Advance(pos, fp) <= |script|
    ensures Seps(script[pos..]) > 0 ==> Seps(script[Advance(pos, fp)..]) < Seps(script[pos..])
    ensures Seps(script[pos..]) == 0 ==> Seps(script[Advance(pos, fp)..]) == 0
  {
    var rest := script[pos..];
    if fp == NPOS {
      SepsZero(rest);
      assert Advance(pos, fp) == pos;
    } else {
      var next := pos + fp + 1;
      assert Advance(pos, fp) == next;
      assert rest == rest[..fp + 1] + script[next..];
      SepsAppend(rest[..fp + 1], script[next..]);
      assert rest[..fp + 1][..fp] == rest[..fp] && rest[..fp + 1][fp] == rest[fp];
      assert Seps(rest[..fp + 1]) >= 1;
    }
  }

  /** With no separator counted, neither search finds one. */
  lemma NoSeparatorLeft(rest: string)
    requires |rest| < NPOS && Seps(rest) <= 0
    ensures DirPart(rest) == ""
  {
    SepsZero(rest);
    LastIndexOfAbsent(rest, '/');
    LastIndexOfAbsent(rest, '\\');
  }

  /** The directory part ends at the last `/`, or when there is none at the
      last `\`, and is empty when the script path names no directory. */
  lemma DirPartSpec(rel: string)
    requires |rel| < NPOS
    ensures var d := DirPart(rel);
      && d == rel[..|d|]
      && ('/' in rel ==> |d| > 0 && d[|d| - 1] == '/' && '/' !in rel[|d|..])
      && ('/' !in rel && '\\' in rel ==> |d| > 0 && d[|d| - 1] == '\\' && '\\' !in rel[|d|..])
      && ('/' !in rel && '\\' !in rel ==> d == "")
  {
    LastIndexOfChar(rel, '/');
    LastIndexOfChar(rel, '\\');
  }

  lemma InSuffix(s: string, i: nat)
    requires i <= |s|
    ensures forall c :: c in s[i..] ==> c in s
  {
    forall c | c in s[i..] ensures c in s {
      var k :| 0 <= k < |s[i..]| && s[i..][k] == c;
      assert s[i + k] == c;
    }
  }

  /** The directory part of a script path that uses one kind of separator
      holds all of its separators: what follows the last one holds none. */
  lemma LevelsAgree(rel: string)
    requires |rel| < NPOS && !('/' in rel && '\\' in rel)
    ensures Seps(DirPart(rel)) == Seps(rel)
    ensures |DirPart(rel)| > 0 <==> Seps(rel) > 0
  {
    DirPartSpec(rel);
    var d := DirPart(rel);
    var tail := rel[|d|..];
    assert rel == d + tail;
    SepsAppend(d, tail);
    InSuffix(rel, |d|);
    SepsZero(tail);
    if |d| > 0 {
      assert IsSep(d[|d| - 1]);
    }
  }

  /** For a script below the working directory whose path uses one kind of
      separator, `resolve_path_to_script` climbs exactly the levels
      `resolve_path_from_script` descends: both keep the copied path, one
      behind the script's directory, the other behind one `../` per
      separator of that directory, and one stops exactly when the other does. */
  lemma ToScriptUndoesFromScript(script: string, cwd: string, path: string, len: int)
    requires NoNul(cwd) && 0 < |cwd| < NPOS && |script| < NPOS && 0 <= len <= NPOS
    requires RelativeStart(script, cwd).Some? && RelativeStart(script, cwd).value <= |script|
    requires var rel := script[RelativeStart(script, cwd).value..]; !('/' in rel && '\\' in rel)
    ensures FromScript(script, cwd, path, len).Done? <==> ToScript(script, cwd, path, len).Done?
    ensures FromScript(script, cwd, path, len).Done? ==>
      var d := DirPart(script[RelativeStart(script, cwd).value..]);
      var tail := path[..Copied(path, len)];
      && FromScript(script, cwd, path, len).value == d + tail
      && ToScript(script, cwd, path, len).value == Repeat("../", Seps(d)) + tail
  {
    LevelsAgree(script[RelativeStart(script, cwd).value..]);
  }
}
