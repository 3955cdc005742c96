/** The records src/lua_env.hpp declares for a parsed project (`lua::output`)
    and its custom commands. Arrays with a separate size field become
    sequences; `char const*` fields that may be null become `Option<string>`. */
module Project {
  import opened Wrappers

  /** `lua::project_type`. A value read back from a script may be any
      integer; those outside the enumeration are kept as `Unknown`. */
  datatype ProjectType = Sources | StaticLibrary | SharedLibrary | Executable | Prebuilt | Unknown(code: int)
  {
    /** The integer the enumeration stores. */
    function Code(): int {
      match this
      case Sources => 0
      case StaticLibrary => 1
      case SharedLibrary => 2
      case Executable => 3
      case Prebuilt => 4
      case Unknown(c) => c
    }
  }

  /** The project type an integer stands for. */
  function TypeOfCode(code: int): (t: ProjectType)
    ensures t.Code() == code
    ensures 0 <= code <= 4 <==> !t.Unknown?
  {
    if code == 0 then Sources
    else if code == 1 then StaticLibrary
    else if code == 2 then SharedLibrary
    else if code == 3 then Executable
    else if code == 4 then Prebuilt
    else Unknown(code)
  }

  /** `TypeOfCode` inverts `Code` on every type whose code it can tell
      apart. */
  lemma TypeOfCodeInverse(t: ProjectType)
    requires t.Unknown? ==> !(0 <= t.code <= 4)
    ensures TypeOfCode(t.Code()) == t
  {
  }

  /** `output::source`: a file and the options written for it alone. */
  datatype Source = Source(file: string, compileOptions: Option<string>)

  /** `custom_command`: in/out file lists and an optional shell command
      (none means "copy the first input to the first output"). */
  datatype CustomCommand = CustomCommand(inputs: seq<string>, outputs: seq<string>, cmd: Option<string>)

  /** `lua::output`: a project ready for generation. */
  datatype Output = Output(
    name: string,
    kind: ProjectType,
    sources: seq<Source>,
    compileOptions: Option<string>,
    linkOptions: Option<string>,
    deps: seq<Output>,
    preBuild: seq<CustomCommand>,
    postBuild: seq<CustomCommand>)
  {
    /** The source file names, in order. */
    function Files(): (fs: seq<string>)
      ensures |fs| == |sources| && forall i :: 0 <= i < |fs| ==> fs[i] == sources[i].file
    {
      seq(|sources|, i requires 0 <= i < |sources| => sources[i].file)
    }
  }
}
