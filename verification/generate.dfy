/** `generate` of src/generator.cpp: the compile edges, the link or archive
    statement and the phony target of one project. */
module Generate {
  import opened Wrappers
  import opened Str
  import opened Project
  import opened Stream
  import opened Objects
  import opened Commands
  import opened Emit

  /** `snprintf(buf, size, "%s", s)` with `size > 0`: at most `size - 1`
      characters are kept, the last place going to the terminator. */
  function Snprintf(s: string, size: nat): (r: string)
    requires size > 0
    ensures |r| <= size - 1 && r <= s
    ensures |s| < size ==> r == s
  {
    if |s| < size then s else s[..size - 1]
  }

  /** The kinds that get a link or archive statement. */
  predicate Linked(k: ProjectType) {
    k.Executable? || k.SharedLibrary? || k.StaticLibrary?
  }

  /** The artifact path `build_out`. Each case measures one string and
      prints another into a buffer of the measured size; on Linux the size
      passed is one short, so the last character is lost, and the static
      library is measured as `.s` but printed as `.a`. */
  function ArtifactPath(p: Platform, o: Output): (r: string)
    requires Linked(o.kind)
    ensures p == Windows && o.kind.Executable? ==> r == "bin/" + o.name + ".exe"
    ensures p == Windows && o.kind.SharedLibrary? ==> r == "bin/" + o.name + ".dll"
    ensures p == Linux && o.kind.Executable? && |o.name| > 0 ==> r == "bin/" + o.name[..|o.name| - 1]
    ensures p == Linux && o.kind.Executable? && |o.name| == 0 ==> r == "bin"
    ensures p == Linux && o.kind.SharedLibrary? ==> r == "bin/" + o.name + ".s"
    ensures o.kind.StaticLibrary? ==> r == "lib/" + o.name + ".a"
  {
    match o.kind
    case Executable =>
      if p == Windows then Snprintf("bin/" + o.name + ".exe", |"bin/" + o.name + ".exe"| + 1)
      else Snprintf("bin/" + o.name, |"bin/" + o.name|)
    case SharedLibrary =>
      if p == Windows then Snprintf("bin/" + o.name + ".dll", |"bin/" + o.name + ".dll"| + 1)
      else Snprintf("bin/" + o.name + ".so", |"bin/" + o.name + ".so"|)
    case StaticLibrary =>
      Snprintf("lib/" + o.name + ".a", |"lib/" + o.name + ".s"| + 1)
  }

  /** The first output of the last step of a chain (read only where it exists). */
  function LastOutput(cmds: seq<CustomCommand>): string {
    if |cmds| > 0 && |cmds[|cmds| - 1].outputs| > 0 then cmds[|cmds| - 1].outputs[0] else ""
  }

  /** The end of each compile edge's first line: ` || ../<first output of the
      last pre-build step>`, or nothing. */
  function PreOrder(o: Output): Run<string> {
    if |o.preBuild| == 0 then Done("\n")
    else if |o.preBuild[|o.preBuild| - 1].outputs| == 0 then Stuck(MemoryFault)
    else Done(" || ../" + LastOutput(o.preBuild) + "\n")
  }

  /** The `cxxflags` of source i: its own options, else the project's. A
      null string printed with `%s` comes out as `(null)`. */
  function Flags(o: Output, i: nat): string
    requires i < |o.sources|
  {
    match o.sources[i].compileOptions
    case Some(opts) => opts
    case None => o.compileOptions.GetOr("(null)")
  }

  /** The first line of the compile edge of source i, before its order-only part. */
  function EdgeHead(ncwd: string, o: Output, objs: seq<string>, i: nat): string
    requires |objs| == |o.sources| && i < |objs|
  {
    "build obj/" + o.name + "/" + objs[i] + ": cxx " + ncwd + "/" + o.sources[i].file
  }

  /** The compile edge of source i. */
  function EdgeRun(ncwd: string, o: Output, objs: seq<string>, i: nat): Run<string>
    requires |objs| == |o.sources| && i < |objs|
  {
    match PreOrder(o)
    case Stuck(e) => Stuck(e)
    case Done(order) => Done(EdgeHead(ncwd, o, objs, i) + order + "    cxxflags = " + Flags(o, i) + "\n")
  }

  function EdgeRuns(ncwd: string, o: Output, objs: seq<string>): (runs: seq<Run<string>>)
    requires |objs| == |o.sources|
    ensures |runs| == |objs| && forall i :: 0 <= i < |objs| ==> runs[i] == EdgeRun(ncwd, o, objs, i)
  {
    seq(|objs|, i requires 0 <= i < |objs| => EdgeRun(ncwd, o, objs, i))
  }

  /** The compile edges, one per source in order. */
  function CompileEdges(ncwd: string, o: Output, objs: seq<string>): Run<string>
    requires |objs| == |o.sources|
  {
    Concat(EdgeRuns(ncwd, o, objs))
  }

  /** The names of a list of projects (the direct dependencies, the
      ninja worklist), in order. */
  function DepNames(ds: seq<Output>): (names: seq<string>)
    ensures |names| == |ds| && forall i :: 0 <= i < |ds| ==> names[i] == ds[i].name
  {
    seq(|ds|, i requires 0 <= i < |ds| => ds[i].name)
  }

  /** `build <artifact>: link` or `: lib`. */
  function LinkLead(p: Platform, o: Output): string
    requires Linked(o.kind)
  {
    "build " + ArtifactPath(p, o) + (if o.kind.StaticLibrary? then ": lib" else ": link")
  }

  /** The project's own objects (a shared library's without the project
      directory). */
  function LinkInputs(o: Output, objs: seq<string>): seq<string>
  {
    Paths(if o.kind.SharedLibrary? then "obj/" else "obj/" + o.name + "/", objs)
  }

  /** The lead, a space, then every input followed by a space. */
  function LinkHead(p: Platform, o: Output, objs: seq<string>): string
    requires Linked(o.kind)
  {
    LinkLead(p, o) + " " + Spaced(LinkInputs(o, objs))
  }

  /** What closes the statement. The archive's `fwrite` is given 19 of the
      20 characters of its literal, so it ends in a single newline. */
  function LinkTrailer(o: Output): (r: string)
    ensures |r| > 0
  {
    if o.kind.StaticLibrary? then "\n    lflags = rscu\n"
    else match o.linkOptions
      case Some(l) => "\n    lflags = " + l + "\n\n"
      case None => "\n\n"
  }

  /** The end of the statement after `s`, the head and the dependency
      artifacts: with dependencies, `|` and their names follow; without,
      the last character written is overwritten by the trailer. */
  function Closed(o: Output, s: string): string
    requires |s| > 0
  {
    (if |o.deps| > 0 then s + "|" + Listed(DepNames(o.deps), " ") else s[..|s| - 1]) + LinkTrailer(o)
  }

  /** The link or archive statement once the dependency artifacts are known. */
  function LinkText(p: Platform, o: Output, objs: seq<string>, deps: string): string
    requires Linked(o.kind)
  {
    Closed(o, LinkHead(p, o, objs) + deps)
  }

  /** What the `switch` on the project kind writes. A source collection
      falls through into the default case. */
  function SwitchText(p: Platform, o: Output, objs: seq<string>): Run<string>
    requires Generable(o)
  {
    if Linked(o.kind) then
      match DepsText(o)
      case Stuck(e) => Stuck(e)
      case Done(deps) => Done(LinkText(p, o, objs, deps))
    else Done("\n")
  }

  /** The value of `build_out` after the `switch`: null, a buffer `malloc(0)`
      returned and nothing was written into, or a string. */
  datatype BuildOut = NoBuildOut | Garbage | Named(path: string)

  function BuildOutOf(p: Platform, o: Output, objs: seq<string>): BuildOut
    requires |objs| == |o.sources|
  {
    if Linked(o.kind) then Named(ArtifactPath(p, o))
    else if o.kind.Sources? then
      if |objs| == 0 then Garbage else Named(Joined(Paths("obj/" + o.name + "/", objs)))
    else NoBuildOut
  }

  /** The phony target named after the project. */
  function Phony(o: Output, path: string): Run<string> {
    if |o.postBuild| == 0 then Done("build " + o.name + ": phony " + path + "\n\n")
    else if |o.postBuild[|o.postBuild| - 1].outputs| == 0 then Stuck(MemoryFault)
    else Done("build " + o.name + ": phony ../" + LastOutput(o.postBuild) + "\n\n")
  }

  /** The post-build chain, ordered after `build_out`, and the phony target. */
  function PostText(o: Output, bo: BuildOut): Run<string>
    requires CmdsWellFormed(o.postBuild)
  {
    match bo
    case NoBuildOut => ChainText(o.postBuild, None)
    case Garbage => Stuck(MemoryFault)
    case Named(path) => Then(ChainText(o.postBuild, Some(path)), Phony(o, path))
  }

  /** Everything after the pre-build chain, once the objects are known. */
  function Body(p: Platform, ncwd: string, o: Output, objs: seq<string>): Run<string>
    requires Generable(o) && |objs| == |o.sources|
  {
    Then(Then(CompileEdges(ncwd, o, objs), SwitchText(p, o, objs)), PostText(o, BuildOutOf(p, o, objs)))
  }

  /** What `generate` appends for one project. */
  function ProjectText(p: Platform, cwd: string, o: Output): Run<string>
    requires Generable(o) && (p == Windows ==> |cwd| > 0)
  {
    match ChainText(o.preBuild, None)
    case Stuck(e) => Stuck(e)
    case Done(pre) =>
      match CollectObjsSpec(o.Files())
      case Stuck(e) => Stuck(e)
      case Done(objs) => Then(Done(pre), Body(p, NinjaCwd(p, cwd), o, objs))
  }

  // ---------------------------------------------------------------- methods

  /** The compile edge of source i. */
  method WriteEdge(ncwd: string, o: Output, objs: seq<string>, i: nat, f: OutFile) returns (fault: Option<Fault>)
    requires |objs| == |o.sources| && i < |objs|
    modifies f
    ensures fault.None? <==> EdgeRun(ncwd, o, objs, i).Done?
    ensures fault.None? ==> f.text == old(f.text) + EdgeRun(ncwd, o, objs, i).value
  {
    ghost var t0 := f.text;
    var head := "build obj/" + o.name + "/" + objs[i] + ": cxx " + ncwd + "/" + o.sources[i].file;
    f.Write(head);
    var order: string;
    if |o.preBuild| > 0 {
      var last := o.preBuild[|o.preBuild| - 1];
      if |last.outputs| == 0 {
        return Some(MemoryFault);
      }
      order := " || ../" + last.outputs[0] + "\n";
    } else {
      order := "\n";
    }
    f.Write(order);
    var flags := "    cxxflags = " + Flags(o, i) + "\n";
    f.Write(flags);
    assert f.text == t0 + (head + order + flags);
    fault := None;
  }

  /** The loop over the sources. */
  method WriteCompileEdges(ncwd: string, o: Output, objs: seq<string>, f: OutFile) returns (fault: Option<Fault>)
    requires |objs| == |o.sources|
    modifies f
    ensures fault.None? <==> CompileEdges(ncwd, o, objs).Done?
    ensures fault.None? ==> f.text == old(f.text) + CompileEdges(ncwd, o, objs).value
  {
    ghost var t0 := f.text;
    ghost var runs := EdgeRuns(ncwd, o, objs);
    for i := 0 to |objs|
      invariant Concat(runs[..i]).Done?
      invariant f.text == t0 + Concat(runs[..i]).value
    {
      fault := WriteEdge(ncwd, o, objs, i, f);
      LoopStep(t0, runs, i, f.text);
      if fault.Some? {
        return;
      }
    }
    LoopEnd(runs);
    fault := None;
  }

  /** The head of the link or archive statement. */
  method WriteLinkHead(p: Platform, o: Output, objs: seq<string>, f: OutFile)
    requires Linked(o.kind)
    modifies f
    ensures f.text == old(f.text) + LinkHead(p, o, objs)
  {
    ghost var t0 := f.text;
    var lead := LinkLead(p, o) + " ";
    f.Write(lead);
    var paths := LinkInputs(o, objs);
    WriteSpaced(paths, f);
    Assoc3(t0, lead, Spaced(paths));
  }

  /** The dependency names or the step back, then the trailer. */
  method WriteClosing(o: Output, ghost t0: string, ghost s: string, f: OutFile)
    requires |s| > 0 && f.text == t0 + s
    modifies f
    ensures f.text == t0 + Closed(o, s)
  {
    var trailer := LinkTrailer(o);
    if |o.deps| > 0 {
      f.Write("|");
      var names := DepNames(o.deps);
      WriteListed(names, " ", f);
      f.Write(trailer);
      assert f.text == t0 + (s + "|" + Listed(names, " ") + trailer);
    } else {
      f.BackUpAndWrite(trailer);
      assert (t0 + s)[..|t0 + s| - 1] == t0 + s[..|s| - 1];
    }
  }

  /** The link or archive statement. */
  method WriteLink(p: Platform, o: Output, objs: seq<string>, f: OutFile) returns (fault: Option<Fault>)
    requires Generable(o) && Linked(o.kind)
    modifies f
    ensures fault.None? <==> DepsText(o).Done?
    ensures fault.None? ==> f.text == old(f.text) + LinkText(p, o, objs, DepsText(o).value)
  {
    ghost var t0 := f.text;
    WriteLinkHead(p, o, objs, f);
    ghost var head := LinkHead(p, o, objs);
    fault := WriteDeps(o, f);
    if fault.Some? {
      return;
    }
    ghost var deps := DepsText(o).value;
    Assoc3(t0, head, deps);
    WriteClosing(o, t0, head + deps, f);
  }

  /** `obj/<name>/` and an object name, copied into buf at pos. */
  method CopyInto(buf: array<char>, pos: nat, s: string)
    requires pos + |s| <= buf.Length
    modifies buf
    ensures buf[..pos + |s|] == old(buf[..pos]) + s
  {
    for k := 0 to |s|
      invariant buf[..pos + k] == old(buf[..pos]) + s[..k]
    {
      buf[pos + k] := s[k];
      assert buf[..pos + k + 1] == buf[..pos + k] + [s[k]];
      assert s[..k + 1] == s[..k] + [s[k]];
    }
    assert s[..|s|] == s;
  }

  /** Spaced distributes over concatenation. */
  lemma {:induction false} SpacedAppend(a: seq<string>, b: seq<string>)
    ensures Spaced(a + b) == Spaced(a) + Spaced(b)
    decreases |b|
  {
    if |b| == 0 {
      assert a + b == a;
    } else {
      var front := b[..|b| - 1];
      assert (a + b)[..|a + b| - 1] == a + front;
      SpacedAppend(a, front);
    }
  }

  /** A non-empty list joined by spaces is the spaced list of all but its
      last item, then that item. */
  lemma {:induction false} JoinedBySpaced(xs: seq<string>)
    requires |xs| > 0
    ensures Joined(xs) == Spaced(xs[..|xs| - 1]) + xs[|xs| - 1]
    decreases |xs|
  {
    if |xs| > 1 {
      var front := xs[..|xs| - 1];
      JoinedBySpaced(front);
      assert front[..|front| - 1] == xs[..|xs| - 2];
    } else {
      assert xs[..0] == [];
    }
  }

  /** One `obj/<name>/<object>` and the character after it, copied into
      buf at pos; returns the position after them. */
  method PutPath(buf: array<char>, pos: nat, name: string, obj: string, sep: char) returns (next: nat)
    requires pos + |"obj/" + name + "/" + obj| + 1 <= buf.Length
    modifies buf
    ensures next == pos + |"obj/" + name + "/" + obj| + 1
    ensures buf[..next] == old(buf[..pos]) + ("obj/" + name + "/" + obj) + [sep]
  {
    ghost var before := buf[..pos];
    CopyInto(buf, pos, "obj/");
    next := pos + 4;
    CopyInto(buf, next, name);
    next := next + |name|;
    buf[next] := '/';
    assert buf[..next + 1] == buf[..next] + ['/'];
    next := next + 1;
    CopyInto(buf, next, obj);
    next := next + |obj|;
    buf[next] := sep;
    assert buf[..next + 1] == buf[..next] + [sep];
    next := next + 1;
    assert buf[..next] == before + ("obj/" + name + "/" + obj) + [sep];
  }

  /** The text held after item i of the buffer loop. */
  lemma BufferStep(paths: seq<string>, i: nat)
    requires i < |paths|
    ensures Spaced(paths[..i]) + paths[i] + [' '] == Spaced(paths[..i + 1])
    ensures i == |paths| - 1 ==> Spaced(paths[..i]) + paths[i] + ['\0'] == Joined(paths) + "\0"
    ensures |Spaced(paths[i..])| == |paths[i]| + 1 + |Spaced(paths[i + 1..])|
  {
    assert paths[..i + 1][..i] == paths[..i];
    assert paths[i..] == [paths[i]] + paths[i + 1..];
    SpacedAppend([paths[i]], paths[i + 1..]);
    assert Spaced([paths[i]]) == paths[i] + " " by {
      assert [paths[i]][..0] == [];
    }
    if i == |paths| - 1 {
      JoinedBySpaced(paths);
      assert paths[..|paths| - 1] == paths[..i];
    }
  }

  /** The `sources` case: one buffer holding `obj/<name>/<object>` for every
      object, separated by spaces and terminated, sized by a first loop. */
  method JoinObjectPaths(name: string, objs: seq<string>) returns (bo: BuildOut)
    ensures bo == (if |objs| == 0 then Garbage else Named(Joined(Paths("obj/" + name + "/", objs))))
  {
    ghost var paths := Paths("obj/" + name + "/", objs);
    var size := 0;
    for i := 0 to |objs|
      invariant size == |Spaced(paths[..i])|
    {
      BufferStep(paths, i);
      size := size + 4 + |name| + 1 + |objs[i]| + 1;
    }
    assert paths[..|objs|] == paths;
    if |objs| == 0 {
      // malloc(0): nothing is ever written into the buffer.
      return Garbage;
    }
    assert paths[0..] == paths;
    var buf := new char[size];
    var pos: nat := 0;
    for i := 0 to |objs|
      invariant pos + |Spaced(paths[i..])| == size == buf.Length
      invariant i < |objs| ==> buf[..pos] == Spaced(paths[..i])
      invariant i == |objs| ==> buf[..pos] == Joined(paths) + "\0"
    {
      BufferStep(paths, i);
      var sep := if i != |objs| - 1 then ' ' else '\0';
      pos := PutPath(buf, pos, name, objs[i], sep);
    }
    assert buf[..pos][..pos - 1] == Joined(paths);
    bo := Named(buf[..pos - 1]);
  }

  /** The `switch` on the project kind; also gives `build_out`. */
  method WriteSwitch(p: Platform, o: Output, objs: seq<string>, f: OutFile) returns (fault: Option<Fault>, bo: BuildOut)
    requires Generable(o) && |objs| == |o.sources|
    modifies f
    ensures bo == BuildOutOf(p, o, objs)
    ensures fault.None? <==> SwitchText(p, o, objs).Done?
    ensures fault.None? ==> f.text == old(f.text) + SwitchText(p, o, objs).value
  {
    fault := None;
    if Linked(o.kind) {
      bo := Named(ArtifactPath(p, o));
      fault := WriteLink(p, o, objs, f);
    } else {
      if o.kind.Sources? {
        bo := JoinObjectPaths(o.name, objs);
      } else {
        bo := NoBuildOut;
      }
      f.Write("\n");
    }
  }

  /** A finished chain of two or more steps read the first output of its last step. */
  lemma ChainReadsLastOutput(cmds: seq<CustomCommand>, chain: Option<string>)
    requires CmdsWellFormed(cmds) && |cmds| > 0 && ChainText(cmds, chain).Done?
    ensures |cmds[|cmds| - 1].outputs| > 0
  {
    var runs := Steps(cmds, chain);
    var last := |cmds| - 1;
    assert Concat(runs).Done?;
    assert runs[last].Done? by {
      ConcatPart(runs, last);
    }
    assert StepText(cmds, last, chain).Done?;
  }

  /** The post-build chain and the phony target. */
  method WritePost(o: Output, bo: BuildOut, f: OutFile) returns (fault: Option<Fault>)
    requires CmdsWellFormed(o.postBuild)
    modifies f
    ensures fault.None? <==> PostText(o, bo).Done?
    ensures fault.None? ==> f.text == old(f.text) + PostText(o, bo).value
  {
    match bo {
      case NoBuildOut =>
        fault := WriteCustomCommand(o.postBuild, None, f);
      case Garbage =>
        fault := Some(MemoryFault);
      case Named(path) =>
        ghost var t0 := f.text;
        fault := WriteCustomCommand(o.postBuild, Some(path), f);
        if fault.Some? {
          return;
        }
        var line: string;
        if |o.postBuild| > 0 {
          ChainReadsLastOutput(o.postBuild, Some(path));
          line := "build " + o.name + ": phony ../" + o.postBuild[|o.postBuild| - 1].outputs[0] + "\n\n";
        } else {
          line := "build " + o.name + ": phony " + path + "\n\n";
        }
        assert Phony(o, path) == Done(line);
        ghost var chain := ChainText(o.postBuild, Some(path)).value;
        assert PostText(o, bo) == Done(chain + line);
        f.Write(line);
        Assoc3(t0, chain, line);
    }
  }

  /** Everything after the pre-build chain. */
  method WriteBody(p: Platform, ncwd: string, o: Output, objs: seq<string>, f: OutFile) returns (fault: Option<Fault>)
    requires Generable(o) && |objs| == |o.sources|
    modifies f
    ensures fault.None? <==> Body(p, ncwd, o, objs).Done?
    ensures fault.None? ==> f.text == old(f.text) + Body(p, ncwd, o, objs).value
  {
    ghost var t0 := f.text;
    fault := WriteCompileEdges(ncwd, o, objs, f);
    if fault.Some? {
      return;
    }
    ghost var edges := CompileEdges(ncwd, o, objs).value;
    var bo;
    fault, bo := WriteSwitch(p, o, objs, f);
    if fault.Some? {
      return;
    }
    ghost var sw := SwitchText(p, o, objs).value;
    Assoc3(t0, edges, sw);
    fault := WritePost(o, bo, f);
    if fault.None? {
      Assoc3(t0, edges + sw, PostText(o, bo).value);
    }
  }

  /** `generate`. */
  method GenerateProject(p: Platform, cwd: string, o: Output, f: OutFile) returns (fault: Option<Fault>)
    requires Generable(o) && (p == Windows ==> |cwd| > 0)
    modifies f
    ensures fault.None? <==> ProjectText(p, cwd, o).Done?
    ensures fault.None? ==> f.text == old(f.text) + ProjectText(p, cwd, o).value
  {
    ghost var t0 := f.text;
    var ncwd := NinjaCwd(p, cwd);
    fault := WriteCustomCommand(o.preBuild, None, f);
    if fault.Some? {
      return;
    }
    ghost var pre := ChainText(o.preBuild, None).value;
    var objs := CollectObjs(o.Files());
    if objs.Stuck? {
      return Some(objs.fault);
    }
    fault := WriteBody(p, ncwd, o, objs.value, f);
    if fault.None? {
      Assoc3(t0, pre, Body(p, ncwd, o, objs.value).value);
    }
  }

  // ---------------------------------------------------------------- properties

  /** Each source gets one compile edge: its object under `obj/<name>/`,
      its file under the ninja working directory, the order-only dependency
      on the last pre-build step's first output when there are pre-build
      steps, and its own options or else the project's. */
  lemma CompileEdgeAt(ncwd: string, o: Output, objs: seq<string>, i: nat)
    requires |objs| == |o.sources| && i < |objs| && CompileEdges(ncwd, o, objs).Done?
    ensures |o.preBuild| == 0 ==> exists k :: MatchAt(CompileEdges(ncwd, o, objs).value,
      EdgeHead(ncwd, o, objs, i) + "\n" + "    cxxflags = " + Flags(o, i) + "\n", k)
    ensures |o.preBuild| > 0 ==> |o.preBuild[|o.preBuild| - 1].outputs| > 0 && exists k :: MatchAt(CompileEdges(ncwd, o, objs).value,
      EdgeHead(ncwd, o, objs, i) + (" || ../" + LastOutput(o.preBuild) + "\n") + "    cxxflags = " + Flags(o, i) + "\n", k)
  {
    var runs := EdgeRuns(ncwd, o, objs);
    ConcatPart(runs, i);
    var k := |Concat(runs[..i]).value|;
    assert MatchAt(CompileEdges(ncwd, o, objs).value, runs[i].value, k);
  }

  /** The parts of `Body`, in order. */
  lemma BodyLayout(p: Platform, ncwd: string, o: Output, objs: seq<string>)
    requires Generable(o) && |objs| == |o.sources| && Body(p, ncwd, o, objs).Done?
    ensures CompileEdges(ncwd, o, objs).Done? && SwitchText(p, o, objs).Done? && PostText(o, BuildOutOf(p, o, objs)).Done?
    ensures Body(p, ncwd, o, objs).value
         == CompileEdges(ncwd, o, objs).value + (SwitchText(p, o, objs).value + PostText(o, BuildOutOf(p, o, objs)).value)
  {
    var b := CompileEdges(ncwd, o, objs);
    var c := SwitchText(p, o, objs);
    var d := PostText(o, BuildOutOf(p, o, objs));
    ThenAssociative(b, c, d);
  }

  /** The text of a project in order: the pre-build chain, the compile
      edges, the `switch` output, then the post-build chain and phony target. */
  lemma ProjectLayout(p: Platform, cwd: string, o: Output)
    requires Generable(o) && (p == Windows ==> |cwd| > 0) && ProjectText(p, cwd, o).Done?
    ensures ChainText(o.preBuild, None).Done?
    ensures CollectObjsSpec(o.Files()).Done? && |CollectObjsSpec(o.Files()).value| == |o.sources|
    ensures var objs := CollectObjsSpec(o.Files()).value;
      && CompileEdges(NinjaCwd(p, cwd), o, objs).Done?
      && SwitchText(p, o, objs).Done?
      && PostText(o, BuildOutOf(p, o, objs)).Done?
      && ProjectText(p, cwd, o).value
         == ChainText(o.preBuild, None).value + CompileEdges(NinjaCwd(p, cwd), o, objs).value
            + (SwitchText(p, o, objs).value + PostText(o, BuildOutOf(p, o, objs)).value)
  {
    var objs := CollectObjsSpec(o.Files()).value;
    var ncwd := NinjaCwd(p, cwd);
    assert Body(p, ncwd, o, objs).Done?;
    BodyLayout(p, ncwd, o, objs);
    var a := ChainText(o.preBuild, None).value;
    var b := CompileEdges(ncwd, o, objs).value;
    var cd := SwitchText(p, o, objs).value + PostText(o, BuildOutOf(p, o, objs)).value;
    assert ProjectText(p, cwd, o).value == a + (b + cd);
  }

  /** Each compile edge appears in the project's text. */
  lemma CompileEdgeInProject(p: Platform, cwd: string, o: Output, i: nat)
    requires Generable(o) && (p == Windows ==> |cwd| > 0) && ProjectText(p, cwd, o).Done? && i < |o.sources|
    ensures CollectObjsSpec(o.Files()).Done? && |CollectObjsSpec(o.Files()).value| == |o.sources|
    ensures |o.preBuild| == 0 ==> exists k :: MatchAt(ProjectText(p, cwd, o).value,
      EdgeHead(NinjaCwd(p, cwd), o, CollectObjsSpec(o.Files()).value, i) + "\n" + "    cxxflags = " + Flags(o, i) + "\n", k)
    ensures |o.preBuild| > 0 ==> |o.preBuild[|o.preBuild| - 1].outputs| > 0 && exists k :: MatchAt(ProjectText(p, cwd, o).value,
      EdgeHead(NinjaCwd(p, cwd), o, CollectObjsSpec(o.Files()).value, i) + (" || ../" + LastOutput(o.preBuild) + "\n") + "    cxxflags = " + Flags(o, i) + "\n", k)
  {
    ProjectLayout(p, cwd, o);
    var objs := CollectObjsSpec(o.Files()).value;
    var ncwd := NinjaCwd(p, cwd);
    var text := ProjectText(p, cwd, o).value;
    var a := ChainText(o.preBuild, None).value;
    var b := CompileEdges(ncwd, o, objs).value;
    var c := SwitchText(p, o, objs).value + PostText(o, BuildOutOf(p, o, objs)).value;
    assert text == a + b + c;
    CompileEdgeAt(ncwd, o, objs, i);
    if |o.preBuild| == 0 {
      var edge := EdgeHead(ncwd, o, objs, i) + "\n" + "    cxxflags = " + Flags(o, i) + "\n";
      var k :| MatchAt(b, edge, k);
      MatchInMiddle(a, b, c, edge, k);
    } else {
      var edge := EdgeHead(ncwd, o, objs, i) + (" || ../" + LastOutput(o.preBuild) + "\n") + "    cxxflags = " + Flags(o, i) + "\n";
      var k :| MatchAt(b, edge, k);
      MatchInMiddle(a, b, c, edge, k);
    }
  }

  /** The post-build part after a named `build_out` ends with the phony
      target: the last post-build step's first output, or else `build_out`. */
  lemma PostEndsWithPhony(o: Output, path: string)
    requires CmdsWellFormed(o.postBuild) && PostText(o, Named(path)).Done?
    ensures |o.postBuild| > 0 ==> |o.postBuild[|o.postBuild| - 1].outputs| > 0
    ensures IsSuffix(PostText(o, Named(path)).value,
      "build " + o.name + ": phony " + (if |o.postBuild| > 0 then "../" + LastOutput(o.postBuild) else path) + "\n\n")
  {
    var chain := ChainText(o.postBuild, Some(path));
    var phony := Phony(o, path);
    assert chain.Done? && phony.Done? && PostText(o, Named(path)).value == chain.value + phony.value;
    SuffixOfAppend(chain.value, phony.value);
    if |o.postBuild| > 0 {
      ChainReadsLastOutput(o.postBuild, Some(path));
      assert phony.value == "build " + o.name + ": phony " + ("../" + LastOutput(o.postBuild)) + "\n\n";
    } else {
      assert phony.value == "build " + o.name + ": phony " + path + "\n\n";
    }
  }

  /** A project's text ends with its post-build part. */
  lemma ProjectEndsWithPost(p: Platform, cwd: string, o: Output)
    requires Generable(o) && (p == Windows ==> |cwd| > 0) && ProjectText(p, cwd, o).Done?
    ensures CollectObjsSpec(o.Files()).Done? && |CollectObjsSpec(o.Files()).value| == |o.sources|
    ensures PostText(o, BuildOutOf(p, o, CollectObjsSpec(o.Files()).value)).Done?
    ensures IsSuffix(ProjectText(p, cwd, o).value, PostText(o, BuildOutOf(p, o, CollectObjsSpec(o.Files()).value)).value)
  {
    ProjectLayout(p, cwd, o);
    var objs := CollectObjsSpec(o.Files()).value;
    var ab := ChainText(o.preBuild, None).value + CompileEdges(NinjaCwd(p, cwd), o, objs).value;
    var c := SwitchText(p, o, objs).value;
    var d := PostText(o, BuildOutOf(p, o, objs)).value;
    assert ProjectText(p, cwd, o).value == (ab + c) + d;
    SuffixOfAppend(ab + c, d);
  }

  /** A project with a link or archive statement ends with the phony target
      named after it: the last post-build step's first output when there
      are post-build steps, else the artifact. */
  lemma PhonyTargetOfLinked(p: Platform, cwd: string, o: Output)
    requires Generable(o) && (p == Windows ==> |cwd| > 0) && ProjectText(p, cwd, o).Done? && Linked(o.kind)
    ensures |o.postBuild| > 0 ==> |o.postBuild[|o.postBuild| - 1].outputs| > 0
    ensures IsSuffix(ProjectText(p, cwd, o).value,
      "build " + o.name + ": phony " + (if |o.postBuild| > 0 then "../" + LastOutput(o.postBuild) else ArtifactPath(p, o)) + "\n\n")
  {
    ProjectEndsWithPost(p, cwd, o);
    var path := ArtifactPath(p, o);
    PostEndsWithPhony(o, path);
    SuffixTransitive(ProjectText(p, cwd, o).value, PostText(o, Named(path)).value,
      "build " + o.name + ": phony " + (if |o.postBuild| > 0 then "../" + LastOutput(o.postBuild) else path) + "\n\n");
  }

  /** A source collection has a phony target too, reached by the fall
      through: its objects, space separated, when there are no post-build
      steps. */
  lemma PhonyTargetOfSources(p: Platform, cwd: string, o: Output, objs: seq<string>)
    requires Generable(o) && (p == Windows ==> |cwd| > 0) && ProjectText(p, cwd, o).Done? && o.kind.Sources?
    requires CollectObjsSpec(o.Files()) == Done(objs)
    ensures |o.postBuild| > 0 ==> |o.postBuild[|o.postBuild| - 1].outputs| > 0
    ensures IsSuffix(ProjectText(p, cwd, o).value,
      "build " + o.name + ": phony " + (if |o.postBuild| > 0 then "../" + LastOutput(o.postBuild) else Joined(Paths("obj/" + o.name + "/", objs))) + "\n\n")
  {
    ProjectEndsWithPost(p, cwd, o);
    var path := Joined(Paths("obj/" + o.name + "/", objs));
    PostEndsWithPhony(o, path);
    SuffixTransitive(ProjectText(p, cwd, o).value, PostText(o, Named(path)).value,
      "build " + o.name + ": phony " + (if |o.postBuild| > 0 then "../" + LastOutput(o.postBuild) else path) + "\n\n");
  }

  /** Any other kind has no phony target: its text ends with the post-build
      chain, not ordered after anything. */
  lemma NoPhonyTarget(p: Platform, cwd: string, o: Output)
    requires Generable(o) && (p == Windows ==> |cwd| > 0) && ProjectText(p, cwd, o).Done?
    requires !Linked(o.kind) && !o.kind.Sources?
    ensures ChainText(o.postBuild, None).Done?
    ensures IsSuffix(ProjectText(p, cwd, o).value, ChainText(o.postBuild, None).value)
  {
    ProjectEndsWithPost(p, cwd, o);
  }


  /** A source collection without sources never completes: `malloc(0)`
      leaves `build_out` pointing at memory nothing was written into, and
      it is read as a string afterwards. */
  lemma EmptySourceCollectionFaults(p: Platform, cwd: string, o: Output)
    requires Generable(o) && (p == Windows ==> |cwd| > 0)
    requires o.kind.Sources? && |o.sources| == 0
    ensures ProjectText(p, cwd, o).Stuck?
  {
    if ProjectText(p, cwd, o).Done? {
      ProjectLayout(p, cwd, o);
    }
  }

  /** Each item after a space is each item before one. */
  lemma {:induction false} SpacedIsListed(xs: seq<string>)
    ensures " " + Spaced(xs) == Listed(xs, " ") + " "
    decreases |xs|
  {
    if |xs| > 0 {
      var front := xs[..|xs| - 1];
      SpacedIsListed(front);
      assert " " + Spaced(xs) == (" " + Spaced(front)) + xs[|xs| - 1] + " ";
    }
  }

  /** Stepping back over the space after the last item. */
  lemma DropLastSpace(lead: string, xs: seq<string>)
    ensures |lead + " " + Spaced(xs)| > 0
    ensures (lead + " " + Spaced(xs))[..|lead + " " + Spaced(xs)| - 1] == lead + Listed(xs, " ")
  {
    SpacedIsListed(xs);
    calc {
      lead + " " + Spaced(xs);
      lead + (" " + Spaced(xs));
      lead + (Listed(xs, " ") + " ");
      lead + Listed(xs, " ") + " ";
    }
  }

  /** No dependencies, no dependency text. */
  lemma NoDependencyText(o: Output)
    requires Generable(o) && |o.deps| == 0
    ensures DepsText(o) == Done("")
  {
    assert DepRuns(o) == [];
  }

  /** Without dependencies the step back removes exactly the space after the
      last input: the inputs are separated by single spaces and the line
      has no trailing space. */
  lemma LinkWithoutDependencies(p: Platform, o: Output, objs: seq<string>)
    requires Generable(o) && Linked(o.kind) && |o.deps| == 0
    ensures SwitchText(p, o, objs) == Done(LinkLead(p, o) + Listed(LinkInputs(o, objs), " ") + LinkTrailer(o))
  {
    NoDependencyText(o);
    var head := LinkHead(p, o, objs);
    assert head + "" == head;
    DropLastSpace(LinkLead(p, o), LinkInputs(o, objs));
  }
}
