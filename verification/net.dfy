/** The path and cache arithmetic of `net::download` in src/net.cpp, and the
    `bin_to_hex` encoding of the archive checksum it keeps.

    The download itself, the hash, the directory listing and deletion, and
    the unzipping are foreign (WinINet, BCrypt, minizip, the file system):
    what they observe or return is a parameter here. The model covers what
    the function computes from those answers: the destination directory,
    the directories it creates, the `.dl-cache` archive and meta paths,
    whether the cached checksum makes it stop early, and the file name each
    archive entry is extracted to. */
module Net {
  import opened Wrappers
  import opened Str
  import LuaPaths

  type Byte = x: int | 0 <= x < 256

  // ---------------------------------------------------------------------
  // bin_to_hex

  /** One nibble as the source writes it: `n + 48`, plus 7 past `'9'`. */
  function HexDigit(n: int): (c: char)
    requires 0 <= n < 16
    ensures c == "0123456789ABCDEF"[n]
  {
    var code := n + 48;
    (if code > 57 then code + 7 else code) as char
  }

  predicate IsHexDigit(c: char) {
    '0' <= c <= '9' || 'A' <= c <= 'F'
  }

  /** The nibble an upper-case hexadecimal digit stands for (0 for any
      other character). */
  function NibbleOf(c: char): (n: int)
    ensures 0 <= n < 16
  {
    if '0' <= c <= '9' then c as int - 48 else if 'A' <= c <= 'F' then c as int - 55 else 0
  }

  /** Each digit decodes back to its nibble. */
  lemma NibbleOfDigit(n: int)
    requires 0 <= n < 16
    ensures IsHexDigit(HexDigit(n)) && NibbleOf(HexDigit(n)) == n
  {
  }

  /** The two digits of one byte, high nibble first. */
  function Pair(b: Byte): string {
    [HexDigit(b / 16), HexDigit(b % 16)]
  }

  lemma PairBack(b: Byte)
    ensures var p := Pair(b); NibbleOf(p[0]) * 16 + NibbleOf(p[1]) == b
  {
    NibbleOfDigit(b / 16);
    NibbleOfDigit(b % 16);
  }

  /** The text `bin_to_hex` fills: the digits of each byte in turn. */
  function Hex(data: seq<Byte>): (r: string)
    ensures |r| == 2 * |data|
    ensures forall k :: 0 <= k < |r| ==> IsHexDigit(r[k])
  {
    if |data| == 0 then ""
    else
      var n := |data| - 1;
      NibbleOfDigit(data[n] / 16);
      NibbleOfDigit(data[n] % 16);
      Hex(data[..n]) + Pair(data[n])
  }

  /** Character 2i encodes the high nibble of byte i, character 2i + 1 its
      low nibble, each as an upper-case hexadecimal digit. */
  lemma {:induction false} HexAt(data: seq<Byte>, i: int)
    requires 0 <= i < |data|
    ensures Hex(data)[2 * i] == "0123456789ABCDEF"[data[i] / 16]
    ensures Hex(data)[2 * i + 1] == "0123456789ABCDEF"[data[i] % 16]
  {
    var n := |data| - 1;
    if i < n {
      HexAt(data[..n], i);
      assert Hex(data) == Hex(data[..n]) + Pair(data[n]);
    }
  }

  /** Reading two digits per byte back (a last odd character is dropped). */
  function Unhex(s: string): seq<Byte> {
    if |s| < 2 then []
    else
      var n := |s| - 2;
      Unhex(s[..n]) + [NibbleOf(s[n]) * 16 + NibbleOf(s[n + 1])]
  }

  /** Decoding a text that ends in the digits of b ends in b. */
  lemma {:induction false} UnhexPair(s: string, b: Byte)
    ensures Unhex(s + Pair(b)) == Unhex(s) + [b]
  {
    var t := s + Pair(b);
    assert t[..|s|] == s;
    PairBack(b);
  }

  /** The checksum text determines the hash: decoding it gives the bytes back. */
  lemma {:induction false} UnhexHex(data: seq<Byte>)
    ensures Unhex(Hex(data)) == data
  {
    if |data| > 0 {
      var n := |data| - 1;
      UnhexHex(data[..n]);
      UnhexPair(Hex(data[..n]), data[n]);
      assert data == data[..n] + [data[n]];
    }
  }

  lemma HexInjective(a: seq<Byte>, b: seq<Byte>)
    ensures Hex(a) == Hex(b) <==> a == b
  {
    if Hex(a) == Hex(b) {
      UnhexHex(a);
      UnhexHex(b);
    }
  }

  /** `bin_to_hex`: a buffer of exactly two characters per byte, without a
      terminator; the byte count must keep `size * 2` within 32 bits. */
  method BinToHex(data: seq<Byte>) returns (hex: string)
    requires 2 * |data| < 0x1_0000_0000
    ensures hex == Hex(data)
  {
    var buf := new char[2 * |data|];
    for i := 0 to |data|
      invariant buf[..2 * i] == Hex(data[..i])
    {
      var high := data[i] / 16 + 48;
      var low := data[i] % 16 + 48;
      if high > 57 {
        high := high + 7;
      }
      if low > 57 {
        low := low + 7;
      }
      buf[2 * i] := high as char;
      buf[2 * i + 1] := low as char;
      assert data[..i + 1][..i] == data[..i];
      assert buf[..2 * i + 2] == buf[..2 * i] + Pair(data[i]);
    }
    assert data[..|data|] == data;
    hex := buf[..];
  }

  // ---------------------------------------------------------------------
  // The destination directory

  /** `str::ends_with(lua_dest, "/")`, taken on the path as the script
      wrote it; on an empty path it compares the byte before the string. */
  function TrailingSlash(luaDest: string): (r: Run<bool>)
    requires |luaDest| < NPOS
    ensures r.Stuck? <==> |luaDest| == 0
    ensures r.Done? ==> (r.value <==> luaDest[|luaDest| - 1] == '/')
  {
    if |luaDest| == 0 then Stuck(MemoryFault)
    else
      assert luaDest[|luaDest| - 1..] == [luaDest[|luaDest| - 1]];
      Done(EndsWithStr(luaDest, "/"))
  }

  /** `fs::is_absolute`: a leading `/` on Linux, a drive letter's `:` as the
      second character on Windows (read past the end of an empty path). */
  function IsAbsolute(p: Platform, path: string): (r: Run<bool>)
    ensures p == Linux ==> r == Done(|path| > 0 && path[0] == '/')
    ensures p == Windows ==> (r.Stuck? <==> |path| == 0)
    ensures p == Windows && |path| > 0 ==> r == Done(|path| > 1 && path[1] == ':')
  {
    match p
    case Linux =>
      assert |path| > 0 ==> path[..1] == [path[0]];
      Done(StartsWith(path, "/"))
    case Windows =>
      if |path| == 0 then Stuck(MemoryFault) else Done(|path| > 1 && path[1] == ':')
  }

  /** The directory archives are unpacked into: an absolute path as given,
      a relative one resolved against the running script. */
  function DestOf(p: Platform, script: string, cwd: string, luaDest: string): (r: Run<string>)
    requires NoNul(cwd) && 0 < |cwd| < NPOS && |script| < NPOS && |luaDest| < NPOS
    ensures IsAbsolute(p, luaDest) == Done(true) ==> r == Done(luaDest)
    ensures IsAbsolute(p, luaDest) == Done(false) ==> r == LuaPaths.FromScript(script, cwd, luaDest, |luaDest|)
  {
    match IsAbsolute(p, luaDest)
    case Stuck(f) => Stuck(f)
    case Done(abs) => if abs then Done(luaDest) else LuaPaths.FromScript(script, cwd, luaDest, |luaDest|)
  }

  // ---------------------------------------------------------------------
  // Creating the destination

  /** Each prefix of s that ends just before a `/` at index from or later,
      shortest first. */
  function Prefixes(s: string, from: nat): seq<string>
    decreases |s| - from
  {
    if from >= |s| then []
    else (if s[from] == '/' then [s[..from]] else []) + Prefixes(s, from + 1)
  }

  /** The entries of xs that are not in existing, in order. */
  function Missing(xs: seq<string>, existing: set<string>): seq<string> {
    if |xs| == 0 then []
    else (if xs[0] in existing then [] else [xs[0]]) + Missing(xs[1..], existing)
  }

  /** The directories `download` creates for dest, in order: nothing when
      dest exists, otherwise each missing prefix of dest ending before a `/`
      and then dest itself. */
  function Created(dest: string, existing: set<string>): seq<string> {
    if dest in existing then [] else Missing(Prefixes(dest, 0), existing) + [dest]
  }

  predicate Ascending(xs: seq<string>) {
    forall i, j :: 0 <= i < j < |xs| ==> |xs[i]| < |xs[j]|
  }

  /** Prefixes lists exactly the prefixes that stop before a `/`. */
  lemma {:induction false} PrefixesMembers(s: string, from: nat)
    ensures forall x :: x in Prefixes(s, from) <==> exists q :: from <= q < |s| && s[q] == '/' && x == s[..q]
    decreases |s| - from
  {
    if from < |s| {
      PrefixesMembers(s, from + 1);
      forall x | (exists q :: from <= q < |s| && s[q] == '/' && x == s[..q])
        ensures x in Prefixes(s, from)
      {
        var q :| from <= q < |s| && s[q] == '/' && x == s[..q];
        if q > from {
          assert x in Prefixes(s, from + 1);
        }
      }
    }
  }

  /** Prefixes lists them shortest first, each shorter than s. */
  lemma {:induction false} PrefixesAscending(s: string, from: nat)
    ensures forall x :: x in Prefixes(s, from) ==> from <= |x| < |s|
    ensures Ascending(Prefixes(s, from))
    decreases |s| - from
  {
    if from < |s| {
      PrefixesAscending(s, from + 1);
      var rest := Prefixes(s, from + 1);
      if s[from] == '/' {
        var all := [s[..from]] + rest;
        assert Prefixes(s, from) == all;
        forall i, j | 0 <= i < j < |all|
          ensures |all[i]| < |all[j]|
        {
          assert all[j] == rest[j - 1];
          if i > 0 {
            assert all[i] == rest[i - 1];
          }
        }
      }
    }
  }

  lemma PrefixesSpec(s: string)
    ensures forall x :: x in Prefixes(s, 0) <==> exists q :: 0 <= q < |s| && s[q] == '/' && x == s[..q]
    ensures Ascending(Prefixes(s, 0))
  {
    PrefixesMembers(s, 0);
    PrefixesAscending(s, 0);
  }

  /** Missing keeps the entries that are not in existing, in their order. */
  lemma {:induction false} MissingSpec(xs: seq<string>, existing: set<string>)
    ensures forall x :: x in Missing(xs, existing) <==> x in xs && x !in existing
    ensures Ascending(xs) ==> Ascending(Missing(xs, existing))
  {
    if |xs| > 0 {
      MissingSpec(xs[1..], existing);
      assert xs == [xs[0]] + xs[1..];
      if Ascending(xs) {
        assert Ascending(xs[1..]);
        forall x | x in Missing(xs[1..], existing)
          ensures |xs[0]| < |x|
        {
          var j :| 0 <= j < |xs[1..]| && xs[1..][j] == x;
          assert xs[j + 1] == x;
        }
      }
    }
  }

  /** What is created: missing directories only, each a prefix of dest
      ending before a `/` or dest itself, parents before children and dest
      last; every missing such prefix is among them. */
  lemma CreatedSpec(dest: string, existing: set<string>)
    ensures var c := Created(dest, existing);
      && (dest in existing <==> c == [])
      && (dest !in existing ==> c[|c| - 1] == dest)
      && Ascending(c)
      && forall x :: x in c <==> (dest !in existing && x !in existing &&
           (x == dest || exists q :: 0 <= q < |dest| && dest[q] == '/' && x == dest[..q]))
  {
    PrefixesSpec(dest);
    MissingSpec(Prefixes(dest, 0), existing);
    var m := Missing(Prefixes(dest, 0), existing);
    if dest !in existing {
      var c := m + [dest];
      forall i, j | 0 <= i < j < |c|
        ensures |c[i]| < |c[j]|
      {
        assert c[i] in m;
        if j < |m| {
          assert c[j] == m[j];
        }
      }
    }
  }

  /** One pass of the loop: the search from pos finds the next `/`, and the
      prefixes from pos are the one it ends plus those after it. */
  lemma {:induction false} PrefixesFrom(s: string, pos: nat, at: int)
    requires pos <= |s| < NPOS && at == IndexOf(s[pos..], "/")
    ensures at == NPOS ==> Prefixes(s, pos) == []
    ensures at != NPOS ==> (0 <= at && pos + at < |s| && s[pos + at] == '/' &&
      Prefixes(s, pos) == [s[..pos + at]] + Prefixes(s, pos + at + 1))
  {
    var rest := s[pos..];
    IndexOfSpec(rest, "/");
    if at == NPOS {
      IndexOfAbsent(rest, '/');
      NoSlashNoPrefixes(s, pos);
    } else {
      assert rest[at..at + 1] == "/";
      forall k | pos <= k < pos + at
        ensures s[k] != '/'
      {
        assert !MatchAt(rest, "/", k - pos);
        assert rest[k - pos..k - pos + 1] == [s[k]];
      }
      SkipNonSlash(s, pos, pos + at);
    }
  }

  lemma {:induction false} NoSlashNoPrefixes(s: string, pos: nat)
    requires pos <= |s| && '/' !in s[pos..]
    ensures Prefixes(s, pos) == []
    decreases |s| - pos
  {
    if pos < |s| {
      assert s[pos] == s[pos..][0];
      assert s[pos + 1..] == s[pos..][1..];
      NoSlashNoPrefixes(s, pos + 1);
    }
  }

  lemma {:induction false} SkipNonSlash(s: string, pos: nat, q: nat)
    requires pos <= q < |s| && s[q] == '/'
    requires forall k :: pos <= k < q ==> s[k] != '/'
    ensures Prefixes(s, pos) == [s[..q]] + Prefixes(s, q + 1)
    decreases q - pos
  {
    if pos < q {
      SkipNonSlash(s, pos + 1, q);
    }
  }

  lemma MissingCons(x: string, xs: seq<string>, existing: set<string>)
    ensures Missing([x] + xs, existing) == (if x in existing then [] else [x]) + Missing(xs, existing)
  {
    assert ([x] + xs)[1..] == xs;
  }

  /** One pass of the directory loop keeps what is still to create in step
      with what was created. */
  lemma MakeStep(dest: string, pos: nat, at: int, created: seq<string>, existing: set<string>)
    requires pos <= |dest| < NPOS && at == IndexOf(dest[pos..], "/") && at != NPOS
    requires created + Missing(Prefixes(dest, pos), existing) == Missing(Prefixes(dest, 0), existing)
    ensures 0 <= at && pos + at < |dest|
    ensures var frag := dest[..at + pos];
      (if frag in existing then created else created + [frag]) + Missing(Prefixes(dest, pos + at + 1), existing)
        == Missing(Prefixes(dest, 0), existing)
  {
    PrefixesFrom(dest, pos, at);
    var frag := dest[..at + pos];
    var later := Missing(Prefixes(dest, pos + at + 1), existing);
    MissingCons(frag, Prefixes(dest, pos + at + 1), existing);
    if frag !in existing {
      assert (created + [frag]) + later == created + ([frag] + later);
    } else {
      assert [] + later == later;
    }
  }

  /** `str::find(s, "/")`. */
  method FindSlash(s: string) returns (at: int)
    requires |s| < NPOS
    ensures at == IndexOf(s, "/")
  {
    assert s[..|s|] == s && "/"[..1] == "/";
    at := Find(s, "/", NPOS, NPOS);
  }

  /** The directory loop of `net::download` (src/net.cpp): when dest does
      not exist, walk its `/` characters left to right, creating each prefix that does not exist,
      then dest. An earlier prefix is shorter than a later one, so creating
      it never changes the answer for the later one. */
  method MakeDirectories(dest: string, existing: set<string>) returns (created: seq<string>)
    requires |dest| < NPOS
    ensures created == Created(dest, existing)
  {
    created := [];
    if dest in existing {
      return;
    }
    var pos := 0;
    var at := FindSlash(dest[pos..]);
    while at != NPOS
      invariant 0 <= pos <= |dest|
      invariant at == IndexOf(dest[pos..], "/")
      invariant created + Missing(Prefixes(dest, pos), existing) == Missing(Prefixes(dest, 0), existing)
      decreases |dest| - pos
    {
      var frag := dest[..at + pos];
      MakeStep(dest, pos, at, created, existing);
      if frag !in existing {
        created := created + [frag];
      }
      pos := pos + at + 1;
      at := FindSlash(dest[pos..]);
    }
    PrefixesFrom(dest, pos, at);
    created := created + [dest];
  }

  // ---------------------------------------------------------------------
  // The cache paths

  /** What follows dest in every path under it: a `/` unless the script's
      destination ended in one. */
  function Separator(trailing: bool): string {
    if trailing then "" else "/"
  }

  const CacheFolder: string := ".dl-cache/"
  const MetaName: string := "meta"

  /** The archive's file name: the URL after its last `/`, or the whole URL
      when it has none. */
  function ArchiveName(url: string): (r: string)
    requires |url| < NPOS
    ensures '/' !in r
    ensures |r| <= |url| && url[|url| - |r|..] == r
    ensures '/' !in url ==> r == url
    ensures '/' in url ==> url[|url| - |r| - 1] == '/'
  {
    LastIndexOfChar(url, '/');
    // rfind gives UINT32_MAX when there is no '/', and adding 1 wraps to 0
    var pos := (LastIndexOf(url, "/") + 1) % 0x1_0000_0000;
    url[pos..]
  }

  /** The cache paths of `net::download`: the archive is downloaded to
      dest/.dl-cache/<archive name> and the checksum kept in dest/.dl-cache/meta. */
  method CachePaths(url: string, dest: string, trailing: bool) returns (zip: string, meta: string)
    requires |url| < NPOS
    ensures zip == dest + Separator(trailing) + CacheFolder + ArchiveName(url)
    ensures meta == dest + Separator(trailing) + CacheFolder + MetaName
  {
    assert url[..|url|] == url && "/"[..1] == "/";
    var slash := RFind(url, "/", NPOS, NPOS);
    var archivePos := (slash + 1) % 0x1_0000_0000;
    var prefix := dest;
    if !trailing {
      prefix := prefix + "/";
    }
    prefix := prefix + ".dl-cache/";
    zip := prefix + url[archivePos..];
    meta := prefix + "meta";
  }

  /** The two cache paths differ unless the archive itself is named `meta`,
      in which case the checksum overwrites the downloaded archive. */
  lemma ArchiveIsMeta(url: string, dest: string, trailing: bool)
    requires |url| < NPOS
    ensures var prefix := dest + Separator(trailing) + CacheFolder;
      prefix + ArchiveName(url) == prefix + MetaName <==> ArchiveName(url) == MetaName
  {
    var prefix := dest + Separator(trailing) + CacheFolder;
    if prefix + ArchiveName(url) == prefix + MetaName {
      assert ArchiveName(url) == (prefix + ArchiveName(url))[|prefix|..];
      assert MetaName == (prefix + MetaName)[|prefix|..];
    }
  }

  // ---------------------------------------------------------------------
  // The checksum cache

  /** How much of the meta file is read. */
  const MetaBufferSize: nat := 1024

  /** The checksum test of `net::download`: it stops and returns false when
      the meta file opens and the bytes read from it (at most 1024) number
      exactly the checksum's length and strncmp finds them equal to it.
      meta is the meta file's contents, None when it does not open. */
  function CacheHit(meta: Option<string>, checksum: string): (r: bool)
    ensures meta.None? ==> !r
    ensures r ==> meta.Some? && |checksum| <= MetaBufferSize
    ensures r ==> |checksum| == (if |meta.value| < MetaBufferSize then |meta.value| else MetaBufferSize)
  {
    meta.Some? &&
    var read := if |meta.value| < MetaBufferSize then |meta.value| else MetaBufferSize;
    read == |checksum| && StrnEq(meta.value[..read], checksum, |checksum|)
  }

  /** The meta file afterwards: untouched on a hit, otherwise rewritten with
      the checksum. */
  function MetaAfter(meta: Option<string>, checksum: string): (r: Option<string>)
    ensures CacheHit(meta, checksum) ==> r == meta
    ensures !CacheHit(meta, checksum) ==> r == Some(checksum)
  {
    if CacheHit(meta, checksum) then meta else Some(checksum)
  }

  /** A checksum without terminator bytes hits exactly when the meta file
      holds it and nothing else, provided it is shorter than the buffer; one
      that fills the buffer only has to start the file, and a longer one
      never hits. */
  lemma CacheHitIff(meta: Option<string>, c: string)
    requires NoNul(c)
    ensures |c| < MetaBufferSize ==> (CacheHit(meta, c) <==> meta == Some(c))
    ensures |c| == MetaBufferSize ==> (CacheHit(meta, c) <==> meta.Some? && c <= meta.value)
    ensures |c| > MetaBufferSize ==> !CacheHit(meta, c)
  {
    if meta.Some? && |c| <= MetaBufferSize {
      var m := meta.value;
      var read := if |m| < MetaBufferSize then |m| else MetaBufferSize;
      StrnEqIsPrefixEq(m[..read], c, |c|);
      assert c[..|c|] == c;
      if read == |c| {
        assert m[..read][..|c|] == m[..read];
        if |c| < MetaBufferSize {
          assert m[..read] == m;
        }
      }
      if |c| == MetaBufferSize && c <= m {
        assert m[..|c|] == c;
      }
    }
  }

  /** Hexadecimal text holds no terminator byte. */
  lemma HexNoNul(hash: seq<Byte>)
    ensures NoNul(Hex(hash))
  {
  }

  /** A second download of the same archive finds the checksum the first
      one wrote and skips the extraction, when the checksum fits the buffer. */
  lemma SecondDownloadHits(meta: Option<string>, hash: seq<Byte>)
    requires 2 * |hash| <= MetaBufferSize
    ensures CacheHit(MetaAfter(meta, Hex(hash)), Hex(hash))
  {
    HexNoNul(hash);
    CacheHitIff(meta, Hex(hash));
    CacheHitIff(MetaAfter(meta, Hex(hash)), Hex(hash));
  }

  // ---------------------------------------------------------------------
  // Extraction targets

  /** An archive entry as minizip describes it. */
  datatype Entry = Entry(name: string, isDir: bool)

  predicate WellNamed(entries: seq<Entry>) {
    forall k :: 0 <= k < |entries| ==> NoNul(entries[k].name) && |entries[k].name| < NPOS
  }

  /** How many leading characters of each entry name are dropped. The
      archive has a main directory when its first entry is a directory whose
      name occurs in the second entry's name; its name is then dropped. A
      first entry that is not a directory leaves an empty name, which `find`
      matches at the end of any string, so nothing is dropped. A second name
      more than one character shorter than the first makes `find`'s unsigned
      bound wrap and read past the name. */
  function StripLength(first: Entry, second: Entry): (r: Run<nat>)
    requires |second.name| < NPOS
    ensures r.Done? && r.value > 0 ==> (first.isDir && r.value == |first.name| &&
      exists i :: MatchAt(second.name, first.name, i))
    ensures r.Stuck? ==> first.isDir && |second.name| + 1 < |first.name|
    ensures !first.isDir ==> r == Done(0)
  {
    var main := if first.isDir then first.name else "";
    if |main| == 0 then Done(0)
    else if |second.name| + 1 < |main| then Stuck(MemoryFault)
    else
      IndexOfSpec(second.name, main);
      Done(if IndexOf(second.name, main) != NPOS then |main| else 0)
  }

  /** Where each entry is written: dest, the separator, and the entry name
      less its first strip characters; a name shorter than strip makes
      strcpy start past its end. */
  function Targets(dest: string, trailing: bool, strip: nat, entries: seq<Entry>): (r: Run<seq<string>>)
    ensures r.Done? <==> forall k :: 0 <= k < |entries| ==> strip <= |entries[k].name|
    ensures r.Done? ==> |r.value| == |entries| && forall k :: 0 <= k < |entries| ==>
      r.value[k] == dest + Separator(trailing) + entries[k].name[strip..]
  {
    if forall k :: 0 <= k < |entries| ==> strip <= |entries[k].name| then
      Done(seq(|entries|, k requires 0 <= k < |entries| =>
        dest + Separator(trailing) + (if strip <= |entries[k].name| then entries[k].name[strip..] else "")))
    else Stuck(MemoryFault)
  }

  /** The file names `download` extracts to, entry by entry. */
  function Extraction(dest: string, trailing: bool, entries: seq<Entry>): Run<seq<string>>
    requires |entries| >= 2 && WellNamed(entries)
  {
    match StripLength(entries[0], entries[1])
    case Stuck(f) => Stuck(f)
    case Done(strip) => Targets(dest, trailing, strip, entries)
  }

  /** The entry loop of `net::download`: decide whether the archive has a main
      directory, then build each entry's target name in one growing buffer. */
  method ExtractTargets(dest: string, trailing: bool, entries: seq<Entry>) returns (r: Run<seq<string>>)
    requires |entries| >= 2 && WellNamed(entries)
    ensures r == Extraction(dest, trailing, entries)
  {
    var mainName := "";
    var mainSize := 0;
    if entries[0].isDir {
      mainName := entries[0].name;
      mainSize := |entries[0].name|;
    }
    var mainDir := false;
    if |mainName| == 0 {
      mainDir := true;
    } else if |entries[1].name| + 1 < |mainName| {
      return Stuck(MemoryFault);
    } else {
      assert entries[1].name[..|entries[1].name|] == entries[1].name;
      assert mainName[..|mainName|] == mainName;
      var at := Find(entries[1].name, mainName, NPOS, NPOS);
      mainDir := at != NPOS;
    }
    var strip := if mainDir then mainSize else 0;
    assert StripLength(entries[0], entries[1]) == Done(strip);
    var root := dest;
    if !trailing {
      root := root + "/";
    }
    assert root == dest + Separator(trailing);
    var names: seq<string> := [];
    for i := 0 to |entries|
      invariant |names| == i
      invariant forall k :: 0 <= k < i ==> strip <= |entries[k].name| && names[k] == root + entries[k].name[strip..]
    {
      var name := entries[i].name;
      if strip > |name| {
        return Stuck(MemoryFault);
      }
      names := names + [root + name[strip..]];
    }
    var t := Targets(dest, trailing, strip, entries);
    assert t.Done?;
    assert forall k :: 0 <= k < |entries| ==> names[k] == t.value[k];
    assert names == t.value;
    return Done(names);
  }

  /** Under a main directory, an entry whose name starts with it is written
      at dest, the separator and the rest of its name; otherwise every entry
      keeps its whole name. */
  lemma MainDirectoryDropped(dest: string, trailing: bool, entries: seq<Entry>, k: int)
    requires |entries| >= 2 && WellNamed(entries) && 0 <= k < |entries|
    requires Extraction(dest, trailing, entries).Done?
    ensures var main := entries[0].name; var name := entries[k].name;
      var target := Extraction(dest, trailing, entries).value[k];
      && (StripLength(entries[0], entries[1]) == Done(0) ==> target == dest + Separator(trailing) + name)
      && (StripLength(entries[0], entries[1]) != Done(0) && |main| <= |name| && name[..|main|] == main ==>
            target == dest + Separator(trailing) + name[|main|..])
  {
  }

  // ---------------------------------------------------------------------
  // Everything `download` decides before fetching

  /** The destination, the directories created, in order, and the two cache
      paths. */
  datatype Plan = Plan(dest: string, trailing: bool, created: seq<string>, archive: string, meta: string)

  /** `net::download` from its arguments up to the cache paths, given the
      running script's path, the working directory and the directories that already exist. */
  function PlanOf(p: Platform, script: string, cwd: string, luaDest: string, url: string, existing: set<string>): (r: Run<Plan>)
    requires NoNul(cwd) && 0 < |cwd| < NPOS && |script| + |luaDest| < NPOS && |url| < NPOS
    ensures r.Done? ==> TrailingSlash(luaDest) == Done(r.value.trailing)
    ensures r.Done? ==> DestOf(p, script, cwd, luaDest) == Done(r.value.dest)
    ensures r.Done? ==> r.value.archive == r.value.dest + Separator(r.value.trailing) + CacheFolder + ArchiveName(url)
    ensures r.Done? ==> r.value.meta == r.value.dest + Separator(r.value.trailing) + CacheFolder + MetaName
    ensures r.Done? ==> var cache := r.value.dest + Separator(r.value.trailing) + CacheFolder; var c := r.value.created;
      (cache !in existing <==> |c| > 0 && c[|c| - 1] == cache)
  {
    match TrailingSlash(luaDest)
    case Stuck(f) => Stuck(f)
    case Done(trailing) =>
      match DestOf(p, script, cwd, luaDest)
      case Stuck(f) => Stuck(f)
      case Done(dest) =>
        var cache := dest + Separator(trailing) + CacheFolder;
        var made := Created(dest, existing);
        CreatedSpec(dest, existing);
        assert |cache| > |dest|;
        Done(Plan(dest, trailing, made + (if cache in existing then [] else [cache]), cache + ArchiveName(url), cache + MetaName))
  }

  /** The same steps in the source's order: the trailing `/` of the script's
      path, the destination, its directories, the cache folder and the two
      cache paths. */
  method Prepare(p: Platform, script: string, cwd: string, luaDest: string, url: string, existing: set<string>) returns (r: Run<Plan>)
    requires NoNul(cwd) && 0 < |cwd| < NPOS && |script| + |luaDest| < NPOS && |url| < NPOS
    ensures r == PlanOf(p, script, cwd, luaDest, url, existing)
  {
    if |luaDest| == 0 {
      return Stuck(MemoryFault);
    }
    var trailing := EndsWithStr(luaDest, "/");
    var dest: string;
    match IsAbsolute(p, luaDest)
    case Stuck(f) => return Stuck(f);
    case Done(abs) =>
      if abs {
        dest := luaDest;
      } else {
        var resolved := LuaPaths.ResolvePathFromScript(script, cwd, luaDest, |luaDest|);
        if resolved.Stuck? {
          return Stuck(resolved.fault);
        }
        dest := resolved.value;
        assert |dest| <= |script| + |luaDest| by {
          match LuaPaths.RelativeStart(script, cwd)
          case None =>
          case Some(pos) =>
        }
      }
    var created := MakeDirectories(dest, existing);
    var zip, meta := CachePaths(url, dest, trailing);
    var cache := dest + Separator(trailing) + CacheFolder;
    if cache !in existing {
      created := created + [cache];
    }
    assert TrailingSlash(luaDest) == Done(trailing);
    assert DestOf(p, script, cwd, luaDest) == Done(dest);
    assert created == Created(dest, existing) + (if cache in existing then [] else [cache]);
    assert zip == cache + ArchiveName(url);
    r := Done(Plan(dest, trailing, created, zip, meta));
    assert r == PlanOf(p, script, cwd, luaDest, url, existing);
  }
}
