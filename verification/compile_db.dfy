/** `generate_db` of src/generator.cpp: `build/compile_commands.json`, one
    entry per source of every generated project. */
module CompileDb {
  import opened Wrappers
  import opened Str
  import opened Project
  import opened Stream
  import opened Escape

  /** The options written for source j of a project: its own, else the
      project's; with neither, `unesc_str` is handed a null pointer. */
  function EntryOptions(o: Output, j: nat): Run<string>
    requires j < |o.sources|
  {
    match o.sources[j].compileOptions
    case Some(opts) => UnescResult(opts)
    case None =>
      match o.compileOptions
      case Some(opts) => UnescResult(opts)
      case None => Stuck(MemoryFault)
  }

  /** The `"directory"` line: the escaped working directory and `build`. */
  function DirectoryLine(p: Platform, ucwd: string): string {
    "\t\t\"directory\": \"" + ucwd + (if p == Windows then "\\\\build" else "/build") + "\",\n"
  }

  /** How entry (i, j) is closed: without a comma only when it belongs to
      the last project and is its last source. */
  function Closing(outs: seq<Output>, i: nat, j: nat): string
    requires i < |outs|
  {
    if i == |outs| - 1 && j == |outs[i].sources| - 1 then "\t}\n" else "\t},\n"
  }

  /** The text of entry (i, j) once its options are escaped: the escaped
      working directory with `build`, `clang++` and the options, the file
      relative to `build`. */
  function EntryText(p: Platform, ucwd: string, outs: seq<Output>, i: nat, j: nat, uopts: string): string
    requires i < |outs| && j < |outs[i].sources|
  {
    ("\t{\n" + DirectoryLine(p, ucwd))
    + ("\t\t\"command\": \"clang++ " + uopts + "\",\n"
       + "\t\t\"file\": \"../" + outs[i].sources[j].file + "\"\n"
       + Closing(outs, i, j))
  }

  /** The entry for source j of project i. */
  function EntryRun(p: Platform, ucwd: string, outs: seq<Output>, i: nat, j: nat): Run<string>
    requires i < |outs| && j < |outs[i].sources|
  {
    match EntryOptions(outs[i], j)
    case Stuck(e) => Stuck(e)
    case Done(uopts) => Done(EntryText(p, ucwd, outs, i, j, uopts))
  }

  /** The entries of project i, one per source in order. */
  function EntryRuns(p: Platform, ucwd: string, outs: seq<Output>, i: nat): (runs: seq<Run<string>>)
    requires i < |outs|
    ensures |runs| == |outs[i].sources|
    ensures forall j :: 0 <= j < |runs| ==> runs[j] == EntryRun(p, ucwd, outs, i, j)
  {
    seq(|outs[i].sources|, j requires 0 <= j < |outs[i].sources| => EntryRun(p, ucwd, outs, i, j))
  }

  /** The entries of every project, project by project. */
  function ProjectRuns(p: Platform, ucwd: string, outs: seq<Output>): (runs: seq<Run<string>>)
    ensures |runs| == |outs|
    ensures forall i :: 0 <= i < |runs| ==> runs[i] == Concat(EntryRuns(p, ucwd, outs, i))
  {
    seq(|outs|, i requires 0 <= i < |outs| => Concat(EntryRuns(p, ucwd, outs, i)))
  }

  /** The whole file. */
  function DbText(p: Platform, cwd: string, outs: seq<Output>): Run<string> {
    match UnescResult(cwd)
    case Stuck(e) => Stuck(e)
    case Done(ucwd) => Then(Done("[\n"), Then(Concat(ProjectRuns(p, ucwd, outs)), Done("]")))
  }

  // ---------------------------------------------------------------- methods

  /** One entry. */
  method WriteEntry(p: Platform, ucwd: string, outs: seq<Output>, i: nat, j: nat, f: OutFile) returns (fault: Option<Fault>)
    requires i < |outs| && j < |outs[i].sources|
    modifies f
    ensures fault.None? <==> EntryRun(p, ucwd, outs, i, j).Done?
    ensures fault.None? ==> f.text == old(f.text) + EntryRun(p, ucwd, outs, i, j).value
  {
    ghost var t0 := f.text;
    var lead := "\t{\n" + DirectoryLine(p, ucwd);
    f.Write(lead);
    var src := outs[i].sources[j];
    var uopts := UnescOptions(outs[i], j);
    if uopts.Stuck? {
      return Some(uopts.fault);
    }
    var rest := "\t\t\"command\": \"clang++ " + uopts.value + "\",\n"
      + "\t\t\"file\": \"../" + src.file + "\"\n"
      + Closing(outs, i, j);
    f.Write(rest);
    Assoc3(t0, lead, rest);
    fault := None;
  }

  /** The escaped options of source j. */
  method UnescOptions(o: Output, j: nat) returns (r: Run<string>)
    requires j < |o.sources|
    ensures r == EntryOptions(o, j)
  {
    var opts := if o.sources[j].compileOptions.Some? then o.sources[j].compileOptions else o.compileOptions;
    if opts.None? {
      // unesc_str(nullptr): strlen reads through a null pointer.
      return Stuck(MemoryFault);
    }
    r := UnescStr(opts.value);
  }

  /** The inner loop: the entries of project i. */
  method WriteProjectEntries(p: Platform, ucwd: string, outs: seq<Output>, i: nat, f: OutFile) returns (fault: Option<Fault>)
    requires i < |outs|
    modifies f
    ensures fault.None? <==> Concat(EntryRuns(p, ucwd, outs, i)).Done?
    ensures fault.None? ==> f.text == old(f.text) + Concat(EntryRuns(p, ucwd, outs, i)).value
  {
    ghost var t0 := f.text;
    ghost var runs := EntryRuns(p, ucwd, outs, i);
    for j := 0 to |outs[i].sources|
      invariant Concat(runs[..j]).Done?
      invariant f.text == t0 + Concat(runs[..j]).value
    {
      fault := WriteEntry(p, ucwd, outs, i, j, f);
      LoopStep(t0, runs, j, f.text);
      if fault.Some? {
        return;
      }
    }
    LoopEnd(runs);
    fault := None;
  }

  /** The outer loop. */
  method WriteEntries(p: Platform, ucwd: string, outs: seq<Output>, f: OutFile) returns (fault: Option<Fault>)
    modifies f
    ensures fault.None? <==> Concat(ProjectRuns(p, ucwd, outs)).Done?
    ensures fault.None? ==> f.text == old(f.text) + Concat(ProjectRuns(p, ucwd, outs)).value
  {
    ghost var t0 := f.text;
    ghost var runs := ProjectRuns(p, ucwd, outs);
    for i := 0 to |outs|
      invariant Concat(runs[..i]).Done?
      invariant f.text == t0 + Concat(runs[..i]).value
    {
      fault := WriteProjectEntries(p, ucwd, outs, i, f);
      LoopStep(t0, runs, i, f.text);
      if fault.Some? {
        return;
      }
    }
    LoopEnd(runs);
    fault := None;
  }

  /** `generate_db`, writing into the file it opened. */
  method GenerateDb(p: Platform, cwd: string, outs: seq<Output>, f: OutFile) returns (fault: Option<Fault>)
    modifies f
    ensures fault.None? <==> DbText(p, cwd, outs).Done?
    ensures fault.None? ==> f.text == old(f.text) + DbText(p, cwd, outs).value
  {
    ghost var t0 := f.text;
    var ucwd := UnescStr(cwd);
    if ucwd.Stuck? {
      return Some(ucwd.fault);
    }
    f.Write("[\n");
    fault := WriteEntries(p, ucwd.value, outs, f);
    if fault.Some? {
      return;
    }
    f.Write("]");
    ghost var body := Concat(ProjectRuns(p, ucwd.value, outs)).value;
    Assoc4(t0, "[\n", body, "]");
    Assoc3("[\n", body, "]");
  }

  // ---------------------------------------------------------------- properties

  /** The file is `[`, a newline, the entries project by project, and `]`. */
  lemma DbLayout(p: Platform, cwd: string, outs: seq<Output>)
    requires DbText(p, cwd, outs).Done?
    ensures UnescResult(cwd).Done? && Concat(ProjectRuns(p, Escaped(cwd), outs)).Done?
    ensures DbText(p, cwd, outs).value == "[\n" + Concat(ProjectRuns(p, Escaped(cwd), outs)).value + "]"
  {
  }

  /** A run nested in the run of a concatenation is found inside the
      concatenation, after everything that precedes it at both levels. */
  lemma NestedRun(outer: seq<Run<string>>, i: nat, inner: seq<Run<string>>, j: nat)
    requires Concat(outer).Done? && i < |outer| && j < |inner| && outer[i] == Concat(inner)
    ensures inner[j].Done? && Concat(outer[..i]).Done? && Concat(inner[..j]).Done?
    ensures |Concat(outer[..i]).value| + |Concat(inner[..j]).value| + |inner[j].value| <= |Concat(outer).value|
    ensures Concat(outer).value[|Concat(outer[..i]).value| + |Concat(inner[..j]).value|..|Concat(outer[..i]).value| + |Concat(inner[..j]).value| + |inner[j].value|]
         == inner[j].value
  {
    ConcatPart(outer, i);
    ConcatPart(inner, j);
    var a, b, x := Concat(outer).value, outer[i].value, inner[j].value;
    var k1, k2 := |Concat(outer[..i]).value|, |Concat(inner[..j]).value|;
    assert a[k1..k1 + |b|] == b;
    assert b[k2..k2 + |x|] == x;
    MatchWithin(a, b, x, k1, k2);
    assert a[k1 + k2..k1 + k2 + |x|] == x;
  }

  /** An entry that is written is the entry text for its options. */
  lemma EntryRunText(p: Platform, ucwd: string, outs: seq<Output>, i: nat, j: nat)
    requires i < |outs| && j < |outs[i].sources| && EntryRun(p, ucwd, outs, i, j).Done?
    ensures EntryOptions(outs[i], j).Done?
    ensures EntryRun(p, ucwd, outs, i, j).value == EntryText(p, ucwd, outs, i, j, EntryOptions(outs[i], j).value)
  {
  }

  /** A run nested in the run of a concatenation is found in the
      bracketed concatenation. */
  lemma BracketedNested(t: string, outer: seq<Run<string>>, i: nat, inner: seq<Run<string>>, j: nat)
    requires Concat(outer).Done? && t == "[\n" + Concat(outer).value + "]"
    requires i < |outer| && j < |inner| && outer[i] == Concat(inner)
    ensures inner[j].Done? && exists k :: MatchAt(t, inner[j].value, k)
  {
    NestedRun(outer, i, inner, j);
    var body, x := Concat(outer).value, inner[j].value;
    var k := |Concat(outer[..i]).value| + |Concat(inner[..j]).value|;
    BracketedMatch(t, body, x, k);
  }

  /** Each source of each project has its entry in the file, written with
      the options chosen for it. */
  lemma EntryInDb(p: Platform, cwd: string, outs: seq<Output>, i: nat, j: nat)
    requires DbText(p, cwd, outs).Done? && i < |outs| && j < |outs[i].sources|
    ensures UnescResult(cwd).Done? && EntryOptions(outs[i], j).Done?
    ensures exists k :: MatchAt(DbText(p, cwd, outs).value, EntryText(p, Escaped(cwd), outs, i, j, EntryOptions(outs[i], j).value), k)
  {
    var ucwd := Escaped(cwd);
    DbLayout(p, cwd, outs);
    BracketedNested(DbText(p, cwd, outs).value, ProjectRuns(p, ucwd, outs), i, EntryRuns(p, ucwd, outs, i), j);
    EntryRunText(p, ucwd, outs, i, j);
  }

  /** What is found in the entries is found in the bracketed file. */
  lemma BracketedMatch(t: string, body: string, x: string, k: nat)
    requires t == "[\n" + body + "]"
    requires k + |x| <= |body| && body[k..k + |x|] == x
    ensures exists m :: MatchAt(t, x, m)
  {
    assert t[2 + k..2 + k + |x|] == body[k..k + |x|];
    assert MatchAt(t, x, 2 + k);
  }

  /** The file is a bracketed list. */
  lemma DbBrackets(p: Platform, cwd: string, outs: seq<Output>)
    requires DbText(p, cwd, outs).Done?
    ensures var t := DbText(p, cwd, outs).value; |t| >= 3 && t[..2] == "[\n" && t[|t| - 1] == ']'
  {
  }

  /** The last entry of project m closes with a comma when m is not the
      last project. */
  lemma LastEntryOf(p: Platform, ucwd: string, outs: seq<Output>, m: nat)
    requires m < |outs| - 1 && |outs[m].sources| > 0
    requires Concat(EntryRuns(p, ucwd, outs, m)).Done?
    ensures IsSuffix(Concat(EntryRuns(p, ucwd, outs, m)).value, "\t},\n")
  {
    var runs := EntryRuns(p, ucwd, outs, m);
    var n := |runs| - 1;
    ConcatPart(runs, n);
    assert runs[..n + 1] == runs;
    assert Concat(runs).value == Concat(runs[..n]).value + runs[n].value;
  }

  /** The entries end with the comma of project m's last entry when every
      later project has no sources. */
  lemma BodyEndsWithComma(p: Platform, ucwd: string, outs: seq<Output>, m: nat)
    requires Concat(ProjectRuns(p, ucwd, outs)).Done?
    requires m < |outs| - 1 && |outs[m].sources| > 0
    requires forall i :: m < i < |outs| ==> |outs[i].sources| == 0
    ensures IsSuffix(Concat(ProjectRuns(p, ucwd, outs)).value, "\t},\n")
  {
    var outer := ProjectRuns(p, ucwd, outs);
    forall k | m < k < |outer|
      ensures outer[k] == Done("")
    {
      assert EntryRuns(p, ucwd, outs, k) == [];
    }
    ConcatThroughLast(outer, m);
    LastEntryOf(p, ucwd, outs, m);
    SuffixOfAppend(Concat(outer[..m]).value, outer[m].value);
    SuffixTransitive(Concat(outer).value, outer[m].value, "\t},\n");
  }

  /** When the last project has no sources, no entry is written without a
      comma: as soon as any project has a source, the list ends in `},`
      before the closing bracket, which JSON does not allow. */
  lemma TrailingComma(p: Platform, cwd: string, outs: seq<Output>, m: nat)
    requires DbText(p, cwd, outs).Done?
    requires |outs| > 0 && |outs[|outs| - 1].sources| == 0
    requires m < |outs| && |outs[m].sources| > 0
    requires forall i :: m < i < |outs| ==> |outs[i].sources| == 0
    ensures IsSuffix(DbText(p, cwd, outs).value, "\t},\n]")
  {
    DbLayout(p, cwd, outs);
    BodyEndsWithComma(p, Escaped(cwd), outs, m);
    SuffixWrapped("[\n", Concat(ProjectRuns(p, Escaped(cwd), outs)).value, "\t},\n", "]");
    assert "\t},\n" + "]" == "\t},\n]";
  }
}
