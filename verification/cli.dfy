/** The command line of `main` in src/main.cpp: the argument loop that
    chooses the script, the directory, the configuration and the compile
    database, or asks for help or a file copy, and the exit status that
    follows. Printing the help text, changing directory, copying the file
    and running the script are effects outside the model: whether the
    script exists, what running it returns and whether the copy succeeded
    are parameters. */
module Cli {
  import opened Wrappers
  import opened Str

  /** What a generation run is told: the script to run, the directory to
      change to, the configuration to generate and whether to write a
      compilation database. */
  datatype Options = Options(file: string, dir: Option<string>, config: Option<string>, compileDb: bool)

  /** `mingen.lua` in the current directory, the first declared
      configuration, no compilation database. */
  const Defaults: Options := Options("mingen.lua", None, None, false)

  /** What the loop ends with: run the generator, print the help and exit
      with a status, or copy a file. */
  datatype Command =
    | Generate(options: Options)
    | Help(status: int)
    | Copy(src: string, dst: string)

  /** The three settings a flag can take a value for. */
  datatype Setting = Directory | File | Configuration

  /** How the loop reads one argument. `Value` is a flag that takes a value,
      with the value when it is written in the same argument after `=`. */
  datatype Arg =
    | Value(setting: Setting, inline: Option<string>)
    | CompileDb
    | CopyFiles
    | HelpFlag
    | Ignored

  /** The value after `=` at index k, when the argument is longer than
      minLen characters and holds `=` there. */
  function Inline(a: string, k: nat, minLen: nat): (r: Option<string>)
    ensures r.Some? <==> |a| > minLen && k < |a| && a[k] == '='
    ensures r.Some? ==> a == a[..k] + "=" + r.value
  {
    if |a| > minLen && CharAt(a, k) == '=' then
      assert a == a[..k] + "=" + a[k + 1..];
      Some(a[k + 1..])
    else None
  }

  /** The `if`/`else if` chain `main` (src/main.cpp) runs on each argument, in order. Every
      test but the one for `cp` is a prefix test, so `-dx` counts as `-d`
      and `--helpme` as `--help`. `-c` splits at `=` only when the argument
      is longer than six characters, and `--configuration` checks the same
      length before looking at its sixteenth character. */
  function Classify(a: string): (r: Arg)
    ensures r == CopyFiles <==> a == "cp"
    ensures r.Value? && r.setting == Configuration && StartsWith(a, "-c") ==>
      (r.inline.Some? <==> |a| > 6 && a[2] == '=')
  {
    if StartsWith(a, "-d") then Value(Directory, Inline(a, 2, 2))
    else if StartsWith(a, "--directory") then Value(Directory, Inline(a, 11, 11))
    else if StartsWith(a, "-f") then Value(File, Inline(a, 2, 2))
    else if StartsWith(a, "--file") then Value(File, Inline(a, 6, 6))
    else if StartsWith(a, "-c") then Value(Configuration, Inline(a, 2, 6))
    else if StartsWith(a, "--configuration") then Value(Configuration, Inline(a, 15, 6))
    else if StartsWith(a, "--compile-db") then CompileDb
    else if a == "cp" then CopyFiles
    else if StartsWith(a, "-h") || StartsWith(a, "--help") then HelpFlag
    else Ignored
  }

  function With(o: Options, s: Setting, v: string): (r: Options)
    ensures s == Directory ==> r == o.(dir := Some(v))
    ensures s == File ==> r == o.(file := v)
    ensures s == Configuration ==> r == o.(config := Some(v))
  {
    match s
    case Directory => o.(dir := Some(v))
    case File => o.(file := v)
    case Configuration => o.(config := Some(v))
  }

  /** The outcome of the loop from argument i on, with the settings read so
      far. A value flag without its value as the last argument asks for the
      help with status 1; `cp` needs two more arguments, otherwise it reads
      past the end of argv. */
  function ParseFrom(argv: seq<string>, i: nat, o: Options): Run<Command>
    decreases |argv| - i
  {
    if i >= |argv| then Done(Generate(o))
    else
      match Classify(argv[i])
      case Value(s, inline) =>
        if inline.Some? then ParseFrom(argv, i + 1, With(o, s, inline.value))
        else if i == |argv| - 1 then Done(Help(1))
        else ParseFrom(argv, i + 2, With(o, s, argv[i + 1]))
      case CompileDb => ParseFrom(argv, i + 1, o.(compileDb := true))
      case CopyFiles => if i + 2 < |argv| then Done(Copy(argv[i + 1], argv[i + 2])) else Stuck(MemoryFault)
      case HelpFlag => Done(Help(0))
      case Ignored => ParseFrom(argv, i + 1, o)
  }

  /** What `main` decides from argv (argv[0] is the program). */
  function Parse(argv: seq<string>): Run<Command> {
    ParseFrom(argv, 1, Defaults)
  }

  /** The argument loop of `main` in src/main.cpp. The locals `file` and `dir` and the
      global `config_param` and `gen_compile_db` are kept in one record. */
  method ParseArgs(argv: seq<string>) returns (r: Run<Command>)
    ensures r == Parse(argv)
  {
    var o := Defaults;
    var printHelp := false;
    var i := 1;
    while i < |argv|
      invariant 1 <= i
      invariant !printHelp
      invariant ParseFrom(argv, i, o) == Parse(argv)
      decreases |argv| - i
    {
      ghost var before := ParseFrom(argv, i, o);
      match Classify(argv[i]) {
        case Value(setting, inline) =>
          if inline.Some? {
            o := With(o, setting, inline.value);
          } else {
            if i == |argv| - 1 {
              printHelp := true;
              break;
            }
            i := i + 1;
            o := With(o, setting, argv[i]);
          }
          assert before == ParseFrom(argv, i + 1, o);
        case CompileDb =>
          o := o.(compileDb := true);
          assert before == ParseFrom(argv, i + 1, o);
        case CopyFiles =>
          if i + 2 >= |argv| {
            return Stuck(MemoryFault);
          }
          return Done(Copy(argv[i + 1], argv[i + 2]));
        case HelpFlag =>
          return Done(Help(0));
        case Ignored =>
          assert before == ParseFrom(argv, i + 1, o);
      }
      i := i + 1;
    }
    if printHelp {
      return Done(Help(1));
    }
    return Done(Generate(o));
  }

  /** A run of arguments that the loop reads to its end carries the settings
      over to whatever follows: no flag in it reaches past it. */
  lemma {:induction false} ParseAppend(a: seq<string>, b: seq<string>, i: nat, o: Options, o1: Options)
    requires i <= |a| && ParseFrom(a, i, o) == Done(Generate(o1))
    ensures ParseFrom(a + b, i, o) == ParseFrom(a + b, |a|, o1)
    decreases |a| - i
  {
    var ab := a + b;
    if i == |a| {
      assert o == o1;
    } else {
      assert ab[i] == a[i];
      match Classify(a[i])
      case Value(s, inline) =>
        if inline.Some? {
          ParseAppend(a, b, i + 1, With(o, s, inline.value), o1);
        } else {
          assert ab[i + 1] == a[i + 1];
          ParseAppend(a, b, i + 2, With(o, s, a[i + 1]), o1);
        }
      case CompileDb => ParseAppend(a, b, i + 1, o.(compileDb := true), o1);
      case Ignored => ParseAppend(a, b, i + 1, o, o1);
    }
  }

  /** A later setting overrides an earlier one, whether its value comes after
      `=` or as the next argument. */
  lemma LaterValueWins(a: seq<string>, o: Options, flag: string, s: Setting, v: string)
    requires |a| >= 1 && Parse(a) == Done(Generate(o))
    ensures Classify(flag) == Value(s, Some(v)) ==> Parse(a + [flag]) == Done(Generate(With(o, s, v)))
    ensures Classify(flag) == Value(s, None) ==> Parse(a + [flag, v]) == Done(Generate(With(o, s, v)))
  {
    ParseAppend(a, [flag], 1, Defaults, o);
    ParseAppend(a, [flag, v], 1, Defaults, o);
    assert (a + [flag])[|a|] == flag;
    assert (a + [flag, v])[|a|] == flag && (a + [flag, v])[|a| + 1] == v;
  }

  /** A flag that takes a value, given last without one, ends the loop with
      the help and status 1. */
  lemma ValueFlagLast(a: seq<string>, o: Options, flag: string)
    requires |a| >= 1 && Parse(a) == Done(Generate(o))
    requires Classify(flag).Value? && Classify(flag).inline.None?
    ensures Parse(a + [flag]) == Done(Help(1))
  {
    ParseAppend(a, [flag], 1, Defaults, o);
    assert (a + [flag])[|a|] == flag;
  }

  /** `-h` or `--help` ends the loop with status 0, whatever follows. */
  lemma HelpStops(a: seq<string>, o: Options, flag: string, rest: seq<string>)
    requires |a| >= 1 && Parse(a) == Done(Generate(o))
    requires Classify(flag) == HelpFlag
    ensures Parse(a + [flag] + rest) == Done(Help(0))
  {
    ParseAppend(a, [flag] + rest, 1, Defaults, o);
    assert a + [flag] + rest == a + ([flag] + rest);
    assert (a + ([flag] + rest))[|a|] == flag;
  }

  /** `cp` copies its next two arguments and nothing after them is read. */
  lemma CopyStops(a: seq<string>, o: Options, src: string, dst: string, rest: seq<string>)
    requires |a| >= 1 && Parse(a) == Done(Generate(o))
    ensures Parse(a + ["cp", src, dst] + rest) == Done(Copy(src, dst))
  {
    var tail := ["cp", src, dst] + rest;
    ParseAppend(a, tail, 1, Defaults, o);
    assert a + ["cp", src, dst] + rest == a + tail;
    assert (a + tail)[|a|] == "cp" && (a + tail)[|a| + 1] == src && (a + tail)[|a| + 2] == dst;
  }

  /** Arguments the loop does not recognise change nothing. */
  lemma {:induction false} IgnoredKeepsDefaults(argv: seq<string>, i: nat, o: Options)
    requires forall k :: i <= k < |argv| ==> Classify(argv[k]) == Ignored
    ensures ParseFrom(argv, i, o) == Done(Generate(o))
    decreases |argv| - i
  {
    if i < |argv| {
      IgnoredKeepsDefaults(argv, i + 1, o);
    }
  }

  /** `-c=X` is split only when longer than six characters: `-c=Rel` takes
      the next argument as the configuration, and asks for help when it is
      the last one. */
  lemma ShortConfigNotSplit()
    ensures Parse(["mingen", "-c=Debug"]) == Done(Generate(Defaults.(config := Some("Debug"))))
    ensures Parse(["mingen", "-c=Rel", "x"]) == Done(Generate(Defaults.(config := Some("x"))))
    ensures Parse(["mingen", "-c=Rel"]) == Done(Help(1))
  {
    assert Classify("-c=Debug") == Value(Configuration, Some("Debug")) by {
      assert "-c=Debug"[..2] == "-c";
      assert "-c=Debug"[3..] == "Debug";
    }
    assert Classify("-c=Rel") == Value(Configuration, None) by {
      assert "-c=Rel"[..2] == "-c";
    }
  }

  /** The spellings of the directory flag; a prefix match makes `-dx` the
      same as `-d`, reading its value from the next argument. */
  lemma DirectorySpellings()
    ensures Classify("-d") == Value(Directory, None) && Classify("-dx") == Value(Directory, None)
    ensures Classify("-d=out") == Value(Directory, Some("out"))
    ensures Classify("--directory=out") == Value(Directory, Some("out"))
  {
    assert "-dx"[..2] == "-d=out"[..2] == "-d";
    assert "-d=out"[3..] == "out";
    assert "--directory=out"[1] == '-';
    assert "--directory=out"[..11] == "--directory" && "--directory=out"[12..] == "out";
  }

  lemma FileSpellings()
    ensures Classify("-f=b.lua") == Value(File, Some("b.lua"))
    ensures Classify("--file=b.lua") == Value(File, Some("b.lua"))
  {
    assert "-f=b.lua"[1] == 'f' && "-f=b.lua"[..2] == "-f" && "-f=b.lua"[3..] == "b.lua";
    assert "--file=b.lua"[1] == '-' && "--file=b.lua"[..11][2] != "--directory"[2];
    assert "--file=b.lua"[..6] == "--file" && "--file=b.lua"[7..] == "b.lua";
  }

  lemma ConfigurationSpellings()
    ensures Classify("--configuration=Release") == Value(Configuration, Some("Release"))
  {
    var a := "--configuration=Release";
    assert a[1] == '-' && a[2] == 'c';
    assert a[..11] != "--directory" && a[..6] != "--file";
    assert a[..15] == "--configuration";
    assert a[16..] == "Release";
  }

  lemma OtherSpellings()
    ensures Classify("--compile-db") == CompileDb
    ensures Classify("-h") == HelpFlag && Classify("--help") == HelpFlag
  {
    var c := "--compile-db";
    assert c[1] == '-' && c[2] == 'c' && c[..6] != "--file" && |c| < 15;
    assert c[..11] != "--directory" && c[..12] == "--compile-db";
    assert "--help"[1] == '-' && "--help"[2] == 'h' && "--help"[..6] == "--help";
    assert "-h"[1] == 'h' && "-h"[..2] == "-h";
  }

  /** The end of `main` in src/main.cpp: the status it returns. found says
      whether the script exists once the directory is changed, ran is what
      running it returns, copied whether the copy and the update of its
      modification time both succeeded. */
  function Status(c: Command, found: bool, ran: int, copied: bool): (code: int)
    ensures c.Help? ==> code == c.status
    ensures c.Generate? ==> code == if found then ran else 1
    ensures c.Copy? ==> (code == 0 <==> copied) && (code == 1 <==> !copied)
  {
    match c
    case Help(status) => status
    case Generate(_) => if found then ran else 1
    case Copy(_, _) => if copied then 0 else 1
  }

  /** The directory `main` changes to: only once the loop has finished with
      a generation run that names one. */
  function DirectoryChange(c: Command): (r: Option<string>)
    ensures r.Some? <==> c.Generate? && c.options.dir.Some?
    ensures r.Some? ==> r == c.options.dir
  {
    if c.Generate? then c.options.dir else None
  }
}
