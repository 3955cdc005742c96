/** `collect_objs` of src/generator.cpp: the object file name of every
    source of a project, after stripping a directory prefix shared with the
    first source and swapping the extension for `.o`. */
module Objects {
  import opened Wrappers
  import opened Str

  /** Source file names are C strings whose length fits a `uint32_t`. */
  predicate FileNames(files: seq<string>) {
    forall i :: 0 <= i < |files| ==> NoNul(files[i]) && |files[i]| < NPOS
  }

  /** The first loop of `collect_objs`, the common-prefix scan, from
      source i with the current `path_start`: `Done` with the value it leaves, or `Hangs` when
      the fallback do-while re-runs the same bounded search forever. */
  function Scan(files: seq<string>, i: nat, ps: int): Run<int>
    requires FileNames(files) && i <= |files|
    requires ps == NPOS || 0 <= ps < NPOS
    decreases |files| - i
  {
    if i == |files| then Done(ps)
    else
      var f := files[i];
      var fileStart := LastIndexOf(f, "/");
      if fileStart == NPOS then Done(0)
      else
        var ps' := if ps == NPOS then fileStart else ps;
        if |f| > ps' && !StrnEq(files[0], f, ps') then
          var fallback := LastIndexOf(f[..ps'], "/");
          if fallback == NPOS then Done(0)
          else if !StrnEq(files[0], f, fallback) then Stuck(Hangs)
          else Scan(files, i + 1, ps')
        else Scan(files, i + 1, ps')
  }

  /** The prefix length stripped from every source: the loop's value,
      incremented unless it is 0 (a `uint32_t`, so UINT32_MAX wraps to 0). */
  function PathStart(files: seq<string>): Run<nat>
    requires FileNames(files)
  {
    match Scan(files, 0, NPOS)
    case Stuck(f) => Stuck(f)
    case Done(ps) => Done(if ps != 0 then (ps + 1) % 0x1_0000_0000 else 0)
  }

  /** The object name of one source: the text from `ps` up to its last `.`
      (or to its end when it has none) followed by `.o`. The copy reads out
      of bounds when `ps` lies past that point. */
  function Object(f: string, ps: nat): (r: Run<string>)
    requires NoNul(f) && |f| < NPOS
    ensures r.Done? ==> |r.value| >= 2 && r.value[|r.value| - 2..] == ".o"
    ensures r.Done? && '.' in f ==>
      var stem := r.value[..|r.value| - 2];
      var dot := ps + |stem|;
      && dot < |f| && f[ps..dot] == stem && f[dot] == '.' && '.' !in f[dot + 1..]
    ensures r.Done? && '.' !in f ==> ps <= |f| && r.value == f[ps..] + ".o"
    ensures r.Stuck? <==> ('.' in f && LastIndexOf(f, ".") < ps) || ('.' !in f && |f| < ps)
  {
    var ext := LastIndexOf(f, ".");
    LastIndexOfChar(f, '.');
    if ext != NPOS then
      if ps <= ext then Done(f[ps..ext] + ".o") else Stuck(MemoryFault)
    else
      if ps <= |f| then Done(f[ps..] + ".o") else Stuck(MemoryFault)
  }

  /** The second loop of `collect_objs`: one object per source, in order. */
  function ObjectList(files: seq<string>, ps: nat): (r: Run<seq<string>>)
    requires FileNames(files)
    ensures r.Done? ==> |r.value| == |files| && forall i :: 0 <= i < |files| ==> Object(files[i], ps) == Done(r.value[i])
    ensures r.Stuck? ==> r.fault == MemoryFault && exists i :: 0 <= i < |files| && Object(files[i], ps).Stuck?
  {
    if |files| == 0 then Done([])
    else
      var n := |files| - 1;
      match ObjectList(files[..n], ps)
      case Stuck(e) => Stuck(e)
      case Done(objs) =>
        match Object(files[n], ps)
        case Stuck(e) => Stuck(e)
        case Done(o) => Done(objs + [o])
  }

  /** One source whose copy would read out of bounds makes the whole list fault. */
  lemma {:induction false} ObjectListFaults(files: seq<string>, ps: nat, k: nat)
    requires FileNames(files) && k < |files| && Object(files[k], ps).Stuck?
    ensures ObjectList(files, ps) == Stuck(MemoryFault)
  {
    var n := |files| - 1;
    if k < n {
      assert files[..n][k] == files[k];
      ObjectListFaults(files[..n], ps, k);
    }
  }

  /** What `collect_objs` computes for a project's sources. */
  function CollectObjsSpec(files: seq<string>): Run<seq<string>>
    requires FileNames(files)
  {
    match PathStart(files)
    case Stuck(e) => Stuck(e)
    case Done(ps) => ObjectList(files, ps)
  }

  /** `collect_objs`: the two loops in turn. */
  method CollectObjs(files: seq<string>) returns (r: Run<seq<string>>)
    requires FileNames(files)
    ensures r == CollectObjsSpec(files)
  {
    var start := FindPathStart(files);
    match start
    case Stuck(e) => return Stuck(e);
    case Done(ps) => r := ObjectNames(files, ps);
  }

  /** The first loop of `collect_objs` and the increment after it. */
  method FindPathStart(files: seq<string>) returns (r: Run<nat>)
    requires FileNames(files)
    ensures r == PathStart(files)
  {
    var ps := NPOS;
    var i := 0;
    var stop := false;
    while i < |files| && !stop
      invariant 0 <= i <= |files|
      invariant ps == NPOS || 0 <= ps < NPOS
      invariant !stop ==> Scan(files, 0, NPOS) == Scan(files, i, ps)
      invariant stop ==> Scan(files, 0, NPOS) == Done(ps)
      decreases |files| - i, !stop
    {
      var f := files[i];
      assert f[..|f|] == f && "/"[..1] == "/";
      var fileStart := RFind(f, "/", NPOS, NPOS);
      if fileStart == NPOS {
        ps := 0;
        stop := true;
      } else {
        if ps == NPOS {
          ps := fileStart;
        }
        if |f| > ps && !StrnEq(files[0], f, ps) {
          fileStart := RFind(f, "/", ps, NPOS);
          if fileStart != NPOS && !StrnEq(files[0], f, fileStart) {
            // The do-while would repeat this same search without end.
            return Stuck(Hangs);
          }
          if fileStart == NPOS {
            ps := 0;
            stop := true;
          }
        }
        if !stop {
          i := i + 1;
        }
      }
    }
    if ps != 0 {
      ps := (ps + 1) % 0x1_0000_0000;
    }
    r := Done(ps);
  }

  /** The second loop of `collect_objs`: fills the object array in source order. */
  method ObjectNames(files: seq<string>, ps: nat) returns (r: Run<seq<string>>)
    requires FileNames(files)
    ensures r == ObjectList(files, ps)
  {
    var objs := new string[|files|];
    for k := 0 to |files|
      invariant ObjectList(files[..k], ps) == Done(objs[..k])
    {
      var f := files[k];
      assert files[..k + 1][..k] == files[..k];
      assert f[..|f|] == f && "."[..1] == ".";
      var fileExt := RFind(f, ".", NPOS, NPOS);
      if fileExt != NPOS {
        if fileExt < ps {
          ObjectListFaults(files, ps, k);
          return Stuck(MemoryFault);
        }
        objs[k] := f[ps..fileExt] + ".o";
      } else {
        if |f| < ps {
          ObjectListFaults(files, ps, k);
          return Stuck(MemoryFault);
        }
        objs[k] := f[ps..] + ".o";
      }
      assert objs[..k + 1] == objs[..k] + [objs[k]];
    }
    assert files[..|files|] == files && objs[..|files|] == objs[..];
    r := Done(objs[..]);
  }

  /** From the second source on, the loop either keeps `path_start` or
      drops it to 0: the fallback never shortens it to an intermediate directory. */
  lemma {:induction false} ScanKeepsOrZeroes(files: seq<string>, i: nat, ps: int)
    requires FileNames(files) && 1 <= i <= |files| && 0 <= ps < NPOS
    ensures Scan(files, i, ps).Done? ==> Scan(files, i, ps).value in {0, ps}
    decreases |files| - i
  {
    if i < |files| {
      ScanKeepsOrZeroes(files, i + 1, ps);
    }
  }

  /** The stripped prefix is empty or ends just after the first source's last `/`. */
  lemma PathStartShape(files: seq<string>)
    requires FileNames(files)
    ensures PathStart(files).Done? ==>
      var ps := PathStart(files).value;
      ps == 0 || (|files| > 0 && '/' in files[0] && ps == LastIndexOf(files[0], "/") + 1)
  {
    if |files| > 0 {
      var f := files[0];
      var fs := LastIndexOf(f, "/");
      if fs != NPOS {
        StrnEqIsPrefixEq(f, f, fs);
        ScanKeepsOrZeroes(files, 1, fs);
        if '/' !in f {
          LastIndexOfAbsent(f, '/');
        }
      }
    }
  }

  /** A stripped prefix is only possible when every source holds a `/`:
      reaching a source without one forces 0. */
  lemma {:induction false} ScanNoSlash(files: seq<string>, i: nat, ps: int, k: nat)
    requires FileNames(files) && i <= k < |files| && (ps == NPOS || 0 <= ps < NPOS)
    requires '/' !in files[k]
    ensures Scan(files, i, ps).Done? ==> Scan(files, i, ps).value == 0
    decreases |files| - i
  {
    if i == k {
      LastIndexOfAbsent(files[k], '/');
    } else {
      var f := files[i];
      var fs := LastIndexOf(f, "/");
      if fs != NPOS {
        ScanNoSlash(files, i + 1, if ps == NPOS then fs else ps, k);
      }
    }
  }

  lemma NoSlashForcesZero(files: seq<string>, k: nat)
    requires FileNames(files) && k < |files| && '/' !in files[k]
    ensures PathStart(files).Done? ==> PathStart(files).value == 0
  {
    ScanNoSlash(files, 0, NPOS, k);
  }

  /** Sources in sibling directories with the same base name get the same
      object name: object names are not unique. */
  lemma SiblingDirectoriesCollide()
    ensures CollectObjsSpec(["src/foo/x.cpp", "src/bar/x.cpp"]) == Done(["x.o", "x.o"])
  {
    SiblingPathStart();
    SiblingObjects();
  }

  lemma SiblingPathStart()
    ensures PathStart(["src/foo/x.cpp", "src/bar/x.cpp"]) == Done(8)
  {
    var f0, f1 := "src/foo/x.cpp", "src/bar/x.cpp";
    var files := [f0, f1];
    LastIndexOfCharAt(f0, '/', 7);
    LastIndexOfCharAt(f1, '/', 7);
    StrnEqIsPrefixEq(f0, f0, 7);
    StrnEqIsPrefixEq(f0, f1, 7);
    assert f0[..7] != f1[..7] by { assert f0[4] != f1[4]; }
    LastIndexOfCharAt(f1[..7], '/', 3);
    StrnEqIsPrefixEq(f0, f1, 3);
    assert f0[..3] == f1[..3];
    assert Scan(files, 2, 7) == Done(7);
    assert Scan(files, 1, 7) == Done(7);
    assert Scan(files, 0, NPOS) == Done(7);
  }

  lemma SiblingObjects()
    ensures ObjectList(["src/foo/x.cpp", "src/bar/x.cpp"], 8) == Done(["x.o", "x.o"])
  {
    var f0, f1 := "src/foo/x.cpp", "src/bar/x.cpp";
    ObjectOfX(f0);
    ObjectOfX(f1);
    var none: seq<string> := [];
    assert [f0, f1][..1] == [f0] && [f0][..0] == none;
    assert ObjectList([f0], 8) == Done(none + ["x.o"]);
    assert none + ["x.o"] == ["x.o"];
    assert ObjectList([f0, f1][..1], 8) == Done(["x.o"]);
    assert ["x.o"] + ["x.o"] == ["x.o", "x.o"];
  }

  lemma ObjectOfX(f: string)
    requires f == "src/foo/x.cpp" || f == "src/bar/x.cpp"
    ensures Object(f, 8) == Done("x.o")
  {
    LastIndexOfCharAt(f, '.', 9);
    assert LastIndexOf(f, ".") == 9;
    assert f[8..9] + ".o" == "x.o";
  }

  /** When the first directory component differs, the fallback search finds
      the same `/` again and again: `collect_objs` never returns. */
  lemma DifferentTopDirectoriesHang()
    ensures CollectObjsSpec(["abc/foo/x.cpp", "xyz/bar/x.cpp"]) == Stuck(Hangs)
  {
    var f0, f1 := "abc/foo/x.cpp", "xyz/bar/x.cpp";
    var files := [f0, f1];
    LastIndexOfCharAt(f0, '/', 7);
    LastIndexOfCharAt(f1, '/', 7);
    StrnEqIsPrefixEq(f0, f0, 7);
    StrnEqIsPrefixEq(f0, f1, 7);
    assert f0[..7] != f1[..7] by { assert f0[0] != f1[0]; }
    LastIndexOfCharAt(f1[..7], '/', 3);
    StrnEqIsPrefixEq(f0, f1, 3);
    assert f0[..3] != f1[..3] by { assert f0[0] != f1[0]; }
  }
}
