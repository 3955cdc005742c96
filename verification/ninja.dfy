/** `ninja_generator` of src/generator.cpp: the rules, the worklist of
    projects to generate, one block of statements per project, the optional
    compile database, and the `default` line. */
module Ninja {
  import opened Wrappers
  import opened Str
  import opened Project
  import opened Stream
  import opened Emit
  import opened Generate
  import opened CompileDb

  /** The rules every build file starts with after the command rules. */
  const BuildRules: string :=
    "rule cxx\n"
    + "    description = Compiling ${in}\n"
    + "    deps = gcc\n"
    + "    depfile = ${out}.d\n"
    + "    command = clang++ -fdiagnostics-absolute-paths -fcolor-diagnostics -fansi-escape-codes ${cxxflags} -MMD -MF ${out}.d -c ${in} -o ${out}\n"
    + "\n"
    + "rule lib\n"
    + "    description = Creating ${out}\n"
    + "    command = llvm-ar ${lflags} ${out} ${in}\n"
    + "\n"
    + "rule link\n"
    + "    description = Creating ${out}\n"
    + "    command = clang++ ${lflags} ${in} -o ${out}\n"
    + "\n"

  /** The `cmd` and `copy` rules; on Windows the copy goes through the
      generator's own executable, whose path fills the `%s`. */
  function CommandRules(p: Platform, exe: string): string {
    if p == Windows then
      "rule cmd\n"
      + "    description = Running ${cmd}\n"
      + "    command = cmd /c pushd .. && ${cmd}\n"
      + "\n"
      + "rule copy\n"
      + "    description = Copying ${in} to ${out}\n"
      + "    command = " + exe + " cp ${in} ${out}\n"
      + "\n"
    else
      "rule cmd\n"
      + "    description = Running ${cmd}\n"
      + "    command = pushd .. && ${cmd}\n"
      + "\n"
      + "rule copy\n"
      + "    description = Copying ${in} to ${out}\n"
      + "    command = cp ${in} ${out}\n"
      + "\n"
  }

  /** Everything written before the first project. */
  function Header(p: Platform, exe: string): string {
    CommandRules(p, exe) + BuildRules
  }

  // ---------------------------------------------------------------- worklist

  /** The inner loops of one iteration: each direct dependency, in order,
      joins the worklist unless a project of the same name is already in it. */
  function AddDeps(ws: seq<Output>, deps: seq<Output>): seq<Output>
    decreases |deps|
  {
    if |deps| == 0 then ws
    else
      var w := AddDeps(ws, deps[..|deps| - 1]);
      var d := deps[|deps| - 1];
      if d.name in DepNames(w) then w else w + [d]
  }

  /** The worklist after n iterations of the outer loop. Every iteration
      reads the first root (Lua index 1), whatever its counter: its new
      dependencies join, then the root itself, unconditionally. */
  function Worklist(root: Output, n: nat): seq<Output> {
    if n == 0 then [] else AddDeps(Worklist(root, n - 1), root.deps) + [root]
  }

  /** n copies of the root. */
  function Copies(root: Output, n: nat): (r: seq<Output>)
    ensures |r| == n && forall i :: 0 <= i < n ==> r[i] == root
  {
    seq(n, i => root)
  }

  /** The direct dependencies with repeated names dropped: what the first
      iteration adds. */
  function Dedup(deps: seq<Output>): seq<Output> {
    AddDeps([], deps)
  }

  /** The outer loop of `ninja_generator`: the worklist, and for each
      iteration the position its root was stored at (the source keeps a
      pointer into the array; a position is what survives reallocation). */
  method BuildWorklist(roots: seq<Output>) returns (outputs: seq<Output>, originals: seq<nat>)
    requires |roots| > 0
    ensures outputs == Worklist(roots[0], |roots|)
    ensures |originals| == |roots|
    ensures forall i :: 0 <= i < |roots| ==> originals[i] < |outputs| && outputs[originals[i]] == roots[0]
  {
    outputs := [];
    originals := [];
    for i := 0 to |roots|
      invariant outputs == Worklist(roots[0], i)
      invariant |originals| == i
      invariant forall m :: 0 <= m < i ==> originals[m] < |outputs| && outputs[originals[m]] == roots[0]
    {
      var out := roots[0];
      AddDepsExtends(outputs, out.deps);
      outputs := AddDependencies(outputs, out.deps);
      originals := originals + [|outputs|];
      outputs := outputs + [out];
    }
  }

  /** The search for a project of the same name (`strcmp` over the
      worklist, stopping at the first match). */
  method HasName(outputs: seq<Output>, name: string) returns (found: bool)
    ensures found <==> name in DepNames(outputs)
  {
    found := false;
    var k := 0;
    while k < |outputs|
      invariant 0 <= k <= |outputs|
      invariant forall m :: 0 <= m < k ==> outputs[m].name != name
    {
      if outputs[k].name == name {
        found := true;
        break;
      }
      k := k + 1;
    }
    assert found ==> DepNames(outputs)[k] == name;
  }

  /** The loop over the direct dependencies of the root. */
  method AddDependencies(ws: seq<Output>, deps: seq<Output>) returns (outputs: seq<Output>)
    ensures outputs == AddDeps(ws, deps)
  {
    outputs := ws;
    for j := 0 to |deps|
      invariant outputs == AddDeps(ws, deps[..j])
    {
      assert deps[..j + 1][..j] == deps[..j];
      var known := HasName(outputs, deps[j].name);
      if !known {
        outputs := outputs + [deps[j]];
      }
    }
    assert deps[..|deps|] == deps;
  }

  /** What precedes a worklist is kept, and what the dependencies add comes
      from them. */
  lemma {:induction false} AddDepsExtends(ws: seq<Output>, deps: seq<Output>)
    ensures |ws| <= |AddDeps(ws, deps)| <= |ws| + |deps|
    ensures AddDeps(ws, deps)[..|ws|] == ws
    ensures forall i :: |ws| <= i < |AddDeps(ws, deps)| ==> AddDeps(ws, deps)[i] in deps
    decreases |deps|
  {
    if |deps| > 0 {
      var front := deps[..|deps| - 1];
      AddDepsExtends(ws, front);
      var w := AddDeps(ws, front);
      forall i | |ws| <= i < |w|
        ensures w[i] in deps
      {
        assert w[i] in front;
      }
    }
  }

  /** After the dependencies are added, the name of every one of them is
      in the worklist. */
  lemma {:induction false} AddDepsCovers(ws: seq<Output>, deps: seq<Output>)
    ensures forall j :: 0 <= j < |deps| ==> deps[j].name in DepNames(AddDeps(ws, deps))
    decreases |deps|
  {
    if |deps| > 0 {
      var front := deps[..|deps| - 1];
      AddDepsCovers(ws, front);
      var w := AddDeps(ws, front);
      var d := deps[|deps| - 1];
      AddDepsExtends(w, [d]);
      assert AddDeps(w, [d]) == AddDeps(ws, deps) by {
        assert [d][..0] == [];
      }
      forall j | 0 <= j < |deps|
        ensures deps[j].name in DepNames(AddDeps(ws, deps))
      {
        if j < |deps| - 1 {
          assert front[j] == deps[j];
          var n := deps[j].name;
          var k :| 0 <= k < |w| && DepNames(w)[k] == n;
          assert DepNames(AddDeps(ws, deps))[k] == n;
        } else if d.name !in DepNames(w) {
          assert DepNames(AddDeps(ws, deps))[|w|] == d.name;
        }
      }
    }
  }

  /** When every dependency's name is already in the worklist, nothing is
      added. */
  lemma {:induction false} AddDepsKnown(ws: seq<Output>, deps: seq<Output>)
    requires forall j :: 0 <= j < |deps| ==> deps[j].name in DepNames(ws)
    ensures AddDeps(ws, deps) == ws
    decreases |deps|
  {
    if |deps| > 0 {
      var front := deps[..|deps| - 1];
      forall j | 0 <= j < |front|
        ensures front[j].name in DepNames(ws)
      {
        assert front[j] == deps[j];
      }
      AddDepsKnown(ws, front);
    }
  }

  /** No two projects of a worklist share a name. */
  predicate DistinctNames(ws: seq<Output>) {
    forall i, j :: 0 <= i < j < |ws| ==> ws[i].name != ws[j].name
  }

  /** Adding dependencies keeps names distinct. */
  lemma {:induction false} AddDepsDistinct(ws: seq<Output>, deps: seq<Output>)
    requires DistinctNames(ws)
    ensures DistinctNames(AddDeps(ws, deps))
    decreases |deps|
  {
    if |deps| > 0 {
      var front := deps[..|deps| - 1];
      AddDepsDistinct(ws, front);
      var w := AddDeps(ws, front);
      var d := deps[|deps| - 1];
      if d.name !in DepNames(w) {
        forall i, j | 0 <= i < j < |w + [d]|
          ensures (w + [d])[i].name != (w + [d])[j].name
        {
          if j == |w| {
            assert DepNames(w)[i] == w[i].name;
          }
        }
      }
    }
  }

  /** What the first iteration adds has no repeated name, and it holds
      every direct dependency's name. */
  lemma DedupProperties(deps: seq<Output>)
    ensures DistinctNames(Dedup(deps))
    ensures forall j :: 0 <= j < |deps| ==> deps[j].name in DepNames(Dedup(deps))
    ensures forall x :: x in Dedup(deps) ==> x in deps
  {
    AddDepsDistinct([], deps);
    AddDepsCovers([], deps);
    AddDepsExtends([], deps);
    forall x | x in Dedup(deps)
      ensures x in deps
    {
      var i :| 0 <= i < |Dedup(deps)| && Dedup(deps)[i] == x;
    }
  }

  /** Names of a worklist followed by more projects. */
  lemma NamesAppend(a: seq<Output>, b: seq<Output>)
    ensures DepNames(a + b) == DepNames(a) + DepNames(b)
  {
  }

  /** Only the first root is ever generated: the worklist is its direct
      dependencies without repeated names, then the root once per root
      given. Later iterations add no dependency, since the first one added
      every name. */
  lemma {:induction false} WorklistShape(root: Output, n: nat)
    requires n > 0
    ensures Worklist(root, n) == Dedup(root.deps) + Copies(root, n)
  {
    if n == 1 {
      assert Copies(root, 1) == [root];
    } else {
      WorklistShape(root, n - 1);
      var w := Worklist(root, n - 1);
      var dd := Dedup(root.deps);
      DedupProperties(root.deps);
      forall j | 0 <= j < |root.deps|
        ensures root.deps[j].name in DepNames(w)
      {
        NamesAppend(dd, Copies(root, n - 1));
      }
      AddDepsKnown(w, root.deps);
      assert Copies(root, n - 1) + [root] == Copies(root, n);
    }
  }

  /** Where the i-th iteration stored its root. */
  lemma RootPositions(root: Output, n: nat, i: nat)
    requires i < n
    ensures |Dedup(root.deps)| + i < |Worklist(root, n)|
    ensures Worklist(root, n)[|Dedup(root.deps)| + i] == root
  {
    WorklistShape(root, n);
  }

  // ---------------------------------------------------------------- the files

  /** `default` and the name of the root of every iteration. */
  function DefaultLine(name: string, n: nat): (r: string)
    ensures |r| == 8 + n * (|name| + 1)
  {
    if n == 0 then "default\n" else DefaultPrefix(name, n) + "\n"
  }

  /** `default` and n times a space and the name. */
  function DefaultPrefix(name: string, n: nat): (r: string)
    ensures |r| == 7 + n * (|name| + 1)
  {
    if n == 0 then "default" else DefaultPrefix(name, n - 1) + " " + name
  }

  /** The default line names the root once per iteration: after `default`,
      the i-th name starts at a fixed stride. */
  lemma {:induction false} DefaultLineNames(name: string, n: nat, i: nat)
    requires i < n
    ensures MatchAt(DefaultPrefix(name, n), " " + name, 7 + i * (|name| + 1))
  {
    var r := DefaultPrefix(name, n);
    if i == n - 1 {
      assert r == DefaultPrefix(name, n - 1) + (" " + name);
    } else {
      DefaultLineNames(name, n - 1, i);
      var q := DefaultPrefix(name, n - 1);
      assert r == q + (" " + name);
      MatchInMiddle("", q, " " + name, " " + name, 7 + i * (|name| + 1));
      assert "" + q + (" " + name) == r;
    }
  }

  /** One block of statements per project of the worklist. */
  function ProjectBlocks(p: Platform, cwd: string, ws: seq<Output>): (runs: seq<Run<string>>)
    requires forall i :: 0 <= i < |ws| ==> Generable(ws[i])
    requires p == Windows ==> |cwd| > 0
    ensures |runs| == |ws| && forall i :: 0 <= i < |ws| ==> runs[i] == ProjectText(p, cwd, ws[i])
  {
    seq(|ws|, i requires 0 <= i < |ws| => ProjectText(p, cwd, ws[i]))
  }

  /** Every project of the worklist of a generable root is generable. */
  lemma WorklistGenerable(root: Output, n: nat)
    requires Generable(root)
    ensures forall i :: 0 <= i < |Worklist(root, n)| ==> Generable(Worklist(root, n)[i])
  {
    if n > 0 {
      WorklistShape(root, n);
      DedupProperties(root.deps);
      forall i | 0 <= i < |Worklist(root, n)|
        ensures Generable(Worklist(root, n)[i])
      {
        var x := Worklist(root, n)[i];
        if i < |Dedup(root.deps)| {
          assert x in Dedup(root.deps);
          var j :| 0 <= j < |root.deps| && root.deps[j] == x;
        }
      }
    }
  }

  /** What follows the header in `build/build.ninja` after n iterations
      over the given root: the statements of every project of the worklist,
      then the default line. */
  function BodyText(p: Platform, cwd: string, root: Output, n: nat): Run<string>
    requires Generable(root) && (p == Windows ==> |cwd| > 0)
  {
    WorklistGenerable(root, n);
    Then(Concat(ProjectBlocks(p, cwd, Worklist(root, n))), Done(DefaultLine(root.name, n)))
  }

  /** `build/build.ninja`, after the given header. */
  function BuildText(header: string, p: Platform, cwd: string, root: Output, n: nat): Run<string>
    requires Generable(root) && (p == Windows ==> |cwd| > 0)
  {
    Then(Done(header), BodyText(p, cwd, root, n))
  }

  /** `build/compile_commands.json`, written only when asked for. */
  function DbFile(p: Platform, cwd: string, root: Output, n: nat, genDb: bool): Run<string> {
    if genDb then DbText(p, cwd, Worklist(root, n)) else Done("")
  }

  /** How a call of the generator ends. */
  datatype Status =
    | EmptyRoots   // `luaL_argcheck` raises "generate must not be empty"
    | Faulted(fault: Fault)
    | Generated

  /** The rules. */
  method WriteHeader(p: Platform, exe: string, f: OutFile)
    modifies f
    ensures f.text == old(f.text) + Header(p, exe)
  {
    ghost var t0 := f.text;
    var rules := CommandRules(p, exe);
    f.Write(rules);
    f.Write(BuildRules);
    Assoc3(t0, rules, BuildRules);
  }

  /** `generate` for every project of the worklist, in order. */
  method GenerateAll(p: Platform, cwd: string, ws: seq<Output>, f: OutFile) returns (fault: Option<Fault>)
    requires forall i :: 0 <= i < |ws| ==> Generable(ws[i])
    requires p == Windows ==> |cwd| > 0
    modifies f
    ensures fault.None? <==> Concat(ProjectBlocks(p, cwd, ws)).Done?
    ensures fault.None? ==> f.text == old(f.text) + Concat(ProjectBlocks(p, cwd, ws)).value
  {
    ghost var t0 := f.text;
    ghost var runs := ProjectBlocks(p, cwd, ws);
    for i := 0 to |ws|
      invariant Concat(runs[..i]).Done?
      invariant f.text == t0 + Concat(runs[..i]).value
    {
      fault := GenerateProject(p, cwd, ws[i], f);
      LoopStep(t0, runs, i, f.text);
      if fault.Some? {
        return;
      }
    }
    LoopEnd(runs);
    fault := None;
  }

  /** The closing `default` line, one name per iteration, each read through
      the position its iteration stored. */
  method WriteDefault(outputs: seq<Output>, originals: seq<nat>, root: Output, f: OutFile)
    requires forall i :: 0 <= i < |originals| ==> originals[i] < |outputs| && outputs[originals[i]] == root
    modifies f
    ensures f.text == old(f.text) + DefaultLine(root.name, |originals|)
  {
    f.Write("default");
    for i := 0 to |originals|
      invariant f.text == old(f.text) + DefaultPrefix(root.name, i)
    {
      f.Write(" " + outputs[originals[i]].name);
    }
    f.Write("\n");
  }

  /** Everything `ninja_generator` does after writing the rules. */
  method GenerateBody(p: Platform, cwd: string, roots: seq<Output>, genDb: bool, f: OutFile, db: OutFile)
    returns (fault: Option<Fault>)
    requires |roots| > 0 && Generable(roots[0])
    requires p == Windows ==> |cwd| > 0
    requires f != db
    modifies f, db
    ensures fault.None? <==> DbFile(p, cwd, roots[0], |roots|, genDb).Done? && BodyText(p, cwd, roots[0], |roots|).Done?
    ensures fault.None? ==>
      f.text == old(f.text) + BodyText(p, cwd, roots[0], |roots|).value
      && db.text == old(db.text) + DbFile(p, cwd, roots[0], |roots|, genDb).value
  {
    ghost var t0 := f.text;
    var outputs, originals := BuildWorklist(roots);
    WorklistGenerable(roots[0], |roots|);
    ghost var blocks := Concat(ProjectBlocks(p, cwd, outputs));
    ghost var default := DefaultLine(roots[0].name, |roots|);
    assert BodyText(p, cwd, roots[0], |roots|) == Then(blocks, Done(default));
    if genDb {
      fault := GenerateDb(p, cwd, outputs, db);
      if fault.Some? {
        return;
      }
    } else {
      assert db.text == old(db.text) + "";
    }
    fault := GenerateAll(p, cwd, outputs, f);
    if fault.Some? {
      return;
    }
    WriteDefault(outputs, originals, roots[0], f);
    Assoc3(t0, blocks.value, default);
  }

  /** `ninja_generator`: the roots are the `generate` table, `exe` the
      generator's own path, `f` the build file and `db` the compile
      database, each as opened for writing. */
  method NinjaGenerator(p: Platform, cwd: string, exe: string, roots: seq<Output>, genDb: bool, f: OutFile, db: OutFile)
    returns (status: Status)
    requires |roots| > 0 ==> Generable(roots[0])
    requires p == Windows ==> |cwd| > 0
    requires f != db
    modifies f, db
    ensures |roots| == 0 <==> status == EmptyRoots
    ensures status == EmptyRoots ==> f.text == old(f.text) && db.text == old(db.text)
    ensures |roots| > 0 ==>
      (status == Generated <==> DbFile(p, cwd, roots[0], |roots|, genDb).Done? && BuildText(Header(p, exe), p, cwd, roots[0], |roots|).Done?)
    ensures status == Generated ==>
      f.text == old(f.text) + BuildText(Header(p, exe), p, cwd, roots[0], |roots|).value
      && db.text == old(db.text) + DbFile(p, cwd, roots[0], |roots|, genDb).value
  {
    if |roots| == 0 {
      return EmptyRoots;
    }
    ghost var t0 := f.text;
    ghost var header := Header(p, exe);
    WriteHeader(p, exe, f);
    HeaderThenBody(header, p, cwd, roots[0], |roots|);
    var fault := GenerateBody(p, cwd, roots, genDb, f, db);
    if fault.Some? {
      return Faulted(fault.value);
    }
    Assoc3(t0, header, BodyText(p, cwd, roots[0], |roots|).value);
    status := Generated;
  }

  // ---------------------------------------------------------------- properties

  /** The build file is complete exactly when its body is, and the header
      comes first. */
  lemma HeaderThenBody(h: string, p: Platform, cwd: string, root: Output, n: nat)
    requires Generable(root) && (p == Windows ==> |cwd| > 0)
    ensures BuildText(h, p, cwd, root, n).Done? <==> BodyText(p, cwd, root, n).Done?
    ensures BuildText(h, p, cwd, root, n).Done? ==> BuildText(h, p, cwd, root, n).value == h + BodyText(p, cwd, root, n).value
  {
  }

  /** The build file is the header, the statements of the worklist's
      projects, and the default line. */
  lemma BuildLayout(h: string, p: Platform, cwd: string, root: Output, n: nat)
    requires Generable(root) && (p == Windows ==> |cwd| > 0)
    ensures forall i :: 0 <= i < |Worklist(root, n)| ==> Generable(Worklist(root, n)[i])
    ensures BuildText(h, p, cwd, root, n).Done? <==> Concat(ProjectBlocks(p, cwd, Worklist(root, n))).Done?
    ensures BuildText(h, p, cwd, root, n).Done? ==>
      BuildText(h, p, cwd, root, n).value
      == h + Concat(ProjectBlocks(p, cwd, Worklist(root, n))).value + DefaultLine(root.name, n)
  {
    WorklistGenerable(root, n);
    if Concat(ProjectBlocks(p, cwd, Worklist(root, n))).Done? {
      Assoc3(h, Concat(ProjectBlocks(p, cwd, Worklist(root, n))).value, DefaultLine(root.name, n));
    }
  }

  /** The build file holds the statements of every project of the
      worklist, in worklist order. */
  lemma ProjectInBuild(h: string, p: Platform, cwd: string, root: Output, n: nat, i: nat)
    requires Generable(root) && (p == Windows ==> |cwd| > 0)
    requires BuildText(h, p, cwd, root, n).Done?
    requires i < |Worklist(root, n)|
    ensures Generable(Worklist(root, n)[i])
    ensures ProjectText(p, cwd, Worklist(root, n)[i]).Done?
    ensures exists k :: MatchAt(BuildText(h, p, cwd, root, n).value, ProjectText(p, cwd, Worklist(root, n)[i]).value, k)
  {
    BuildLayout(h, p, cwd, root, n);
    RunInConcat(h, ProjectBlocks(p, cwd, Worklist(root, n)), DefaultLine(root.name, n), i);
  }

  /** The build file ends with `default` and the root's name once per
      iteration. */
  lemma BuildEndsWithDefault(h: string, p: Platform, cwd: string, root: Output, n: nat)
    requires Generable(root) && (p == Windows ==> |cwd| > 0)
    requires BuildText(h, p, cwd, root, n).Done?
    ensures IsSuffix(BuildText(h, p, cwd, root, n).value, DefaultLine(root.name, n))
  {
    BuildLayout(h, p, cwd, root, n);
    SuffixOfAppend(h + Concat(ProjectBlocks(p, cwd, Worklist(root, n))).value, DefaultLine(root.name, n));
  }
}
