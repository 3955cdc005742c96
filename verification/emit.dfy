/** `write_deps`, `get_ninja_cwd` and `generate` of src/generator.cpp: the
    ninja statements for one project. */
module Emit {
  import opened Wrappers
  import opened Str
  import opened Project
  import opened Stream
  import opened Objects
  import opened Commands

  /** What the generator needs of a project and of every project below it:
      source names it can search, and command strings it can search. */
  predicate Generable(o: Output)
    decreases o
  {
    && FileNames(o.Files())
    && CmdsWellFormed(o.preBuild) && CmdsWellFormed(o.postBuild)
    && forall i :: 0 <= i < |o.deps| ==> Generable(o.deps[i])
  }

  /** `get_ninja_cwd`: on Windows a `$` is inserted after the drive letter
      (ninja's escape for the `:` that follows); elsewhere the path is kept. */
  function NinjaCwd(p: Platform, cwd: string): (r: string)
    requires p == Windows ==> |cwd| > 0
    ensures p == Linux ==> r == cwd
    ensures p == Windows ==> |r| == |cwd| + 1 && r[0] == cwd[0] && r[1] == '$' && r[..1] + r[2..] == cwd
  {
    if p == Windows then [cwd[0], '$'] + cwd[1..] else cwd
  }

  /** Every object name behind a common prefix. */
  function Paths(prefix: string, objs: seq<string>): (ps: seq<string>)
    ensures |ps| == |objs| && forall i :: 0 <= i < |objs| ==> ps[i] == prefix + objs[i]
  {
    seq(|objs|, i requires 0 <= i < |objs| => prefix + objs[i])
  }

  /** Each item followed by one space (the `"%s "` loops). */
  function Spaced(xs: seq<string>): string
  {
    if |xs| == 0 then "" else Spaced(xs[..|xs| - 1]) + xs[|xs| - 1] + " "
  }

  /** What `write_deps` lists for one dependency itself: its object files
      for a source collection, its archive for a library, nothing otherwise. */
  function DepArtifacts(d: Output): Run<string>
    requires Generable(d)
  {
    match d.kind
    case Sources =>
      (match CollectObjsSpec(d.Files())
       case Stuck(e) => Stuck(e)
       case Done(objs) => Done(Spaced(Paths("obj/" + d.name + "/", objs))))
    case SharedLibrary => Done("lib/" + d.name + ".a ")
    case StaticLibrary => Done("lib/" + d.name + ".a ")
    case _ => Done("")
  }

  /** One iteration of `write_deps` per direct dependency: its own
      artifacts, then everything below it. */
  function DepRuns(o: Output): (runs: seq<Run<string>>)
    requires Generable(o)
    decreases o, 0
  {
    seq(|o.deps|, i requires 0 <= i < |o.deps| => Then(DepArtifacts(o.deps[i]), DepsText(o.deps[i])))
  }

  /** What `write_deps` writes for a project. */
  function DepsText(o: Output): Run<string>
    requires Generable(o)
    decreases o, 1
  {
    Concat(DepRuns(o))
  }

  /** Writes `Spaced(xs)`. */
  method WriteSpaced(xs: seq<string>, f: OutFile)
    modifies f
    ensures f.text == old(f.text) + Spaced(xs)
  {
    for j := 0 to |xs|
      invariant f.text == old(f.text) + Spaced(xs[..j])
    {
      assert xs[..j + 1][..j] == xs[..j];
      f.Write(xs[j] + " ");
      assert f.text == old(f.text) + (Spaced(xs[..j]) + xs[j] + " ");
    }
    assert xs[..|xs|] == xs;
  }

  /** The `switch` of `write_deps` for one dependency. */
  method WriteDepArtifacts(d: Output, f: OutFile) returns (fault: Option<Fault>)
    requires Generable(d)
    modifies f
    ensures fault.None? <==> DepArtifacts(d).Done?
    ensures fault.None? ==> f.text == old(f.text) + DepArtifacts(d).value
  {
    fault := None;
    match d.kind {
      case Sources =>
        var objs := CollectObjs(d.Files());
        if objs.Stuck? {
          return Some(objs.fault);
        }
        WriteSpaced(Paths("obj/" + d.name + "/", objs.value), f);
      case SharedLibrary =>
        f.Write("lib/" + d.name + ".a ");
      case StaticLibrary =>
        f.Write("lib/" + d.name + ".a ");
      case _ =>
        assert DepArtifacts(d) == Done("");
        assert f.text + "" == f.text;
    }
  }

  /** One dependency: its artifacts, then the recursive call. */
  method WriteDep(d: Output, f: OutFile) returns (fault: Option<Fault>)
    requires Generable(d)
    modifies f
    decreases d, 2
    ensures fault.None? <==> Then(DepArtifacts(d), DepsText(d)).Done?
    ensures fault.None? ==> f.text == old(f.text) + Then(DepArtifacts(d), DepsText(d)).value
  {
    ghost var t0 := f.text;
    fault := WriteDepArtifacts(d, f);
    if fault.Some? {
      return;
    }
    fault := WriteDeps(d, f);
    if fault.None? {
      Assoc3(t0, DepArtifacts(d).value, DepsText(d).value);
    }
  }

  /** `write_deps`: every dependency in order, each followed by its own
      dependencies, with no deduplication. */
  method WriteDeps(o: Output, f: OutFile) returns (fault: Option<Fault>)
    requires Generable(o)
    modifies f
    decreases o, 1
    ensures fault.None? <==> DepsText(o).Done?
    ensures fault.None? ==> f.text == old(f.text) + DepsText(o).value
  {
    ghost var t0 := f.text;
    ghost var runs := DepRuns(o);
    for i := 0 to |o.deps|
      invariant Concat(runs[..i]).Done?
      invariant f.text == t0 + Concat(runs[..i]).value
    {
      fault := WriteDep(o.deps[i], f);
      LoopStep(t0, runs, i, f.text);
      if fault.Some? {
        return;
      }
    }
    LoopEnd(runs);
    fault := None;
  }

  /** Every project below o, depth first, each before its own dependencies:
      the subtrees of the direct dependencies in order. */
  function Descendants(o: Output): seq<Output>
    decreases o, 1
  {
    DescendantsOf(o, |o.deps|)
  }

  /** The subtrees of the first n direct dependencies of o. */
  function DescendantsOf(o: Output, n: nat): seq<Output>
    requires n <= |o.deps|
    decreases o, 0, n
  {
    if n == 0 then [] else DescendantsOf(o, n - 1) + [o.deps[n - 1]] + Descendants(o.deps[n - 1])
  }

  /** Every project below a generable project is generable. */
  lemma {:induction false} DescendantsGenerable(o: Output)
    requires Generable(o)
    ensures forall d :: d in Descendants(o) ==> Generable(d)
    decreases o, 1
  {
    DescendantsOfGenerable(o, |o.deps|);
  }

  lemma {:induction false} DescendantsOfGenerable(o: Output, n: nat)
    requires Generable(o) && n <= |o.deps|
    ensures forall d :: d in DescendantsOf(o, n) ==> Generable(d)
    decreases o, 0, n
  {
    if n > 0 {
      DescendantsOfGenerable(o, n - 1);
      DescendantsGenerable(o.deps[n - 1]);
    }
  }

  /** The artifacts each listed project contributes on its own. */
  function ArtifactRuns(ds: seq<Output>): (runs: seq<Run<string>>)
    requires forall d :: d in ds ==> Generable(d)
    ensures |runs| == |ds| && forall i :: 0 <= i < |ds| ==> runs[i] == DepArtifacts(ds[i])
  {
    seq(|ds|, i requires 0 <= i < |ds| => DepArtifacts(ds[i]))
  }

  /** `write_deps` is a pre-order walk of the whole dependency tree with no
      deduplication: its text is the artifacts of every project below o, in
      depth-first order, a project shared by two parents appearing twice. */
  lemma {:induction false} DepsTextPreOrder(o: Output)
    requires Generable(o)
    ensures forall d :: d in Descendants(o) ==> Generable(d)
    ensures DepsText(o) == Concat(ArtifactRuns(Descendants(o)))
    decreases o, 1
  {
    DescendantsGenerable(o);
    DepsPrefixPreOrder(o, |o.deps|);
    assert DepRuns(o)[..|o.deps|] == DepRuns(o);
  }

  /** The first n iterations of `write_deps` list the subtrees of the first
      n dependencies. */
  lemma {:induction false} DepsPrefixPreOrder(o: Output, n: nat)
    requires Generable(o) && n <= |o.deps|
    ensures forall d :: d in DescendantsOf(o, n) ==> Generable(d)
    ensures Concat(DepRuns(o)[..n]) == Concat(ArtifactRuns(DescendantsOf(o, n)))
    decreases o, 0, n
  {
    DescendantsOfGenerable(o, n);
    if n > 0 {
      var d := o.deps[n - 1];
      var runs := DepRuns(o);
      DepsPrefixPreOrder(o, n - 1);
      DepsTextPreOrder(d);
      var before := DescendantsOf(o, n - 1);
      var below := Descendants(d);
      assert runs[..n][..n - 1] == runs[..n - 1];
      assert Concat(runs[..n]) == Then(Concat(runs[..n - 1]), runs[n - 1]);
      assert runs[n - 1] == Then(DepArtifacts(d), DepsText(d));
      ThenAssociative(Concat(ArtifactRuns(before)), DepArtifacts(d), Concat(ArtifactRuns(below)));
      ArtifactRunsStep(o, n);
      ConcatAround(ArtifactRuns(before), DepArtifacts(d), ArtifactRuns(below));
    }
  }

  /** The artifact runs of the first n subtrees, split at the last one. */
  lemma ArtifactRunsStep(o: Output, n: nat)
    requires Generable(o) && 0 < n <= |o.deps|
    ensures forall d :: d in DescendantsOf(o, n - 1) ==> Generable(d)
    ensures forall d :: d in Descendants(o.deps[n - 1]) ==> Generable(d)
    ensures forall d :: d in DescendantsOf(o, n) ==> Generable(d)
    ensures ArtifactRuns(DescendantsOf(o, n))
         == ArtifactRuns(DescendantsOf(o, n - 1)) + [DepArtifacts(o.deps[n - 1])] + ArtifactRuns(Descendants(o.deps[n - 1]))
  {
    DescendantsOfGenerable(o, n);
    DescendantsOfGenerable(o, n - 1);
    DescendantsGenerable(o.deps[n - 1]);
  }
}
