/** `parse_config_input` and `parse_input` of src/lua_env.cpp: a
    project table as a script declares it, checked key by key and appended
    into a `lua::input` record. List keys may appear both at top level and
    inside the table named after the active configuration; each occurrence
    appends after what earlier ones stored. */
module LuaInput {
  import opened Wrappers
  import opened LuaValue
  import opened Project
  import opened LuaOutput

  /** `lua::input`. Each list holds the slots `realloc` grew it by. */
  datatype Input = Input(
    name: Option<string>,
    kind: ProjectType,
    sources: seq<Slot<string>>,
    includes: seq<Slot<string>>,
    compileOptions: seq<Slot<string>>,
    deps: seq<Slot<Parsed>>,
    linkOptions: seq<Slot<string>>,
    staticLibraryDirectories: seq<Slot<string>>,
    staticLibraries: seq<Slot<string>>)

  /** `input in {0}; in.type = project_type::count;` */
  const Fresh := Input(None, Unknown(5), [], [], [], [], [], [], [])

  /** The string lists `parse_config_input` fills. */
  datatype ListKey = SourcesList | Includes | CompileOptions | LinkOptions | StaticLibraries | StaticLibraryDirectories

  function List(inp: Input, k: ListKey): seq<Slot<string>> {
    match k
    case SourcesList => inp.sources
    case Includes => inp.includes
    case CompileOptions => inp.compileOptions
    case LinkOptions => inp.linkOptions
    case StaticLibraries => inp.staticLibraries
    case StaticLibraryDirectories => inp.staticLibraryDirectories
  }

  function WithList(inp: Input, k: ListKey, l: seq<Slot<string>>): (r: Input)
    ensures List(r, k) == l
    ensures forall k2 :: k2 != k ==> List(r, k2) == List(inp, k2)
    ensures r.name == inp.name && r.kind == inp.kind && r.deps == inp.deps
  {
    match k
    case SourcesList => inp.(sources := l)
    case Includes => inp.(includes := l)
    case CompileOptions => inp.(compileOptions := l)
    case LinkOptions => inp.(linkOptions := l)
    case StaticLibraries => inp.(staticLibraries := l)
    case StaticLibraryDirectories => inp.(staticLibraryDirectories := l)
  }

  /** The string list a key fills; the static library keys only for a
      prebuilt project. */
  function ListOf(key: string, kind: ProjectType): (r: Option<ListKey>)
    ensures r.Some? ==> key != "dependencies" && key != "name" && key != "type"
  {
    if key == "sources" then Some(SourcesList)
    else if key == "includes" then Some(Includes)
    else if key == "compile_options" then Some(CompileOptions)
    else if key == "link_options" then Some(LinkOptions)
    else if key == "static_libraries" && kind == Prebuilt then Some(StaticLibraries)
    else if key == "static_library_directories" && kind == Prebuilt then Some(StaticLibraryDirectories)
    else None
  }

  /** The keys `parse_config_input` accepts. */
  predicate Recognised(key: string, kind: ProjectType) {
    key == "dependencies" || ListOf(key, kind).Some?
  }

  /** A string element as it lands in a list: copied, or its slot left unwritten. */
  function StrSlot(v: Value): Slot<string> {
    if IsString(v) then Set(ToStr(v)) else Unset
  }

  /** The slots appended for an array of `len` elements read from 1-based
      index `base + 1` on. */
  function Appended(t: Value, base: nat, len: nat): (r: seq<Slot<string>>)
    requires t.Table?
    ensures |r| == len
  {
    seq(len, j requires 0 <= j < len => StrSlot(RawGetI(t, base + j + 1)))
  }

  /** Where a list's reads start: the `sources` branch indexes the array with
      the list's old size added, the others from 1. */
  function Base(k: ListKey, size: nat): nat {
    if k == SourcesList then size else 0
  }

  /** `b` is `a` with elements added to the end of its lists only. */
  predicate Extends(a: Input, b: Input) {
    b.name == a.name && b.kind == a.kind && a.deps <= b.deps
    && forall k :: List(a, k) <= List(b, k)
  }

  /** `parse_config_input`: `Ok(None)` is a `false` return (key not handled). */
  function ConfigStep(inp: Input, key: string, value: Value): (r: Outcome<Option<Input>>)
    ensures r.Ok? && r.value.None? <==> !Recognised(key, inp.kind)
    ensures Recognised(key, inp.kind) && !value.Table? ==> r == Raised(key + ": expecting array")
    ensures r.Ok? && r.value.Some? ==> Extends(inp, r.value.value)
    ensures r.Ok? && r.value.Some? && key != "dependencies" ==>
      |List(r.value.value, ListOf(key, inp.kind).value)| == |List(inp, ListOf(key, inp.kind).value)| + |value.items|
  {
    if key == "dependencies" then
      if !value.Table? then Raised(key + ": expecting array")
      else if |value.items| == 0 then Ok(Some(inp))
      else
        match DepsOf(value, |value.items|)
        case Ok(ds) => Ok(Some(inp.(deps := inp.deps + ds)))
        case e => e.Fail()
    else
      match ListOf(key, inp.kind)
      case None => Ok(None)
      case Some(k) =>
        if !value.Table? then Raised(key + ": expecting array")
        else if |value.items| == 0 then Ok(Some(inp))
        else
          var prior := List(inp, k);
          Ok(Some(WithList(inp, k, prior + Appended(value, Base(k, |prior|), |value.items|))))
  }

  /** A configuration table's fields from index `j` on; an unhandled key
      raises an error naming the configuration. */
  function ConfigWalk(inp: Input, config: string, t: Value, j: nat): (r: Outcome<Input>)
    requires t.Table? && j <= |t.fields|
    ensures r.Ok? ==> Extends(inp, r.value)
    ensures r.Ok? ==> forall f :: f in t.fields[j..] ==> Recognised(f.key, inp.kind)
    decreases |t.fields| - j
  {
    if j == |t.fields| then Ok(inp)
    else
      match ConfigStep(inp, t.fields[j].key, t.fields[j].value)
      case Ok(Some(next)) =>
        var r := ConfigWalk(next, config, t, j + 1);
        assert t.fields[j..] == [t.fields[j]] + t.fields[j + 1..];
        r
      case Ok(None) => Raised("Unknown key: " + config)
      case e => e.Fail()
  }

  /** `parse_config_input` never handles the key "1" an array part starts
      with. */
  lemma FirstItemKeyUnhandled(inp: Input, value: Value)
    ensures ConfigStep(inp, FirstItemKey, value) == Ok(None)
  {
  }

  /** The inner `lua_next` loop over a configuration table. An array part
      is visited first, and its key "1" is unhandled (`FirstItemKeyUnhandled`),
      so the loop raises the error naming the configuration at once. */
  function ConfigLoop(inp: Input, config: string, t: Value): (r: Outcome<Input>)
    requires t.Table?
    ensures |t.items| > 0 ==> r == Raised("Unknown key: " + config)
    ensures |t.items| == 0 ==> r == ConfigWalk(inp, config, t, 0)
    ensures r.Ok? ==> |t.items| == 0 && Extends(inp, r.value)
    ensures r.Ok? ==> forall f :: f in t.fields ==> Recognised(f.key, inp.kind)
  {
    if |t.items| > 0 then Raised("Unknown key: " + config)
    else
      var r := ConfigWalk(inp, config, t, 0);
      assert t.fields[0..] == t.fields;
      r
  }

  /** The `type` field, read before the walk. */
  function TypeRead(v: Value): (r: Outcome<ProjectType>)
    ensures r.Ok? <==> GetField(v, "type").Table? && !GetField(GetField(v, "type"), EnumKey).Nil?
    ensures GetField(v, "type").Nil? ==> r == Raised("missing key: type")
    ensures !r.Ok? && !GetField(v, "type").Nil? ==> r == Raised("type: expecting project_type enum")
  {
    var t := GetField(v, "type");
    if t.Table? then
      var e := GetField(t, EnumKey);
      if e.Nil? then Raised("type: expecting project_type enum")
      else Ok(TypeOfCode(Int32(ToInteger(e))))
    else if !t.Nil? then Raised("type: expecting project_type enum")
    else Raised("missing key: type")
  }

  /** One pass of the top-level loop. `config` is the active configuration
      name; comparing a key with a null name is undefined. */
  function InputStep(inp: Input, key: string, value: Value, config: Option<string>): (r: Outcome<Input>)
    ensures r.Ok? && key != "name" ==> Extends(inp, r.value)
    ensures r.Ok? && key == "name" ==> value.Str? && r.value == inp.(name := Some(value.s))
  {
    if key == "name" then
      if value.Str? then Ok(inp.(name := Some(value.s))) else Raised("name: expecting string")
    else if key == "type" then Ok(inp)
    else if config.None? then Undefined
    else if key == config.value then
      if !value.Table? then Raised(key + ": expecting table")
      else ConfigLoop(inp, key, value)
    else
      match ConfigStep(inp, key, value)
      case Ok(Some(next)) => Ok(next)
      case Ok(None) => Ok(inp)
      case e => e.Fail()
  }

  /** Whether a top-level key that went through `InputStep` is reported as
      unknown: not handled, and not the name of a declared configuration. */
  predicate Warns(key: string, kind: ProjectType, config: string, configs: seq<string>) {
    key != "name" && key != "type" && key != config && !Recognised(key, kind) && key !in configs
  }

  /** What the loop leaves: its outcome, and the unknown keys reported
      (printed as they are met, before any later error). */
  datatype Walked = Walked(result: Outcome<Input>, warnings: seq<string>)

  function InputWalk(v: Value, config: Option<string>, configs: seq<string>, inp: Input, i: nat): Walked
    requires v.Table? && i <= |v.fields|
    decreases |v.fields| - i
  {
    if i == |v.fields| then Walked(Ok(inp), [])
    else
      var f := v.fields[i];
      match InputStep(inp, f.key, f.value, config)
      case Ok(next) =>
        var rest := InputWalk(v, config, configs, next, i + 1);
        var w := if config.Some? && Warns(f.key, inp.kind, config.value, configs) then [f.key] else [];
        Walked(rest.result, w + rest.warnings)
      case e => Walked(e, [])
  }

  /** The top-level `lua_next` loop. An array part is visited first: its
      key "1" goes through one pass of the loop, which warns about it unless
      it names a configuration, and the `lua_next` after it raises. */
  function InputLoop(v: Value, config: Option<string>, configs: seq<string>, inp: Input): (r: Walked)
    requires v.Table?
    ensures |v.items| == 0 ==> r == InputWalk(v, config, configs, inp, 0)
    ensures |v.items| > 0 ==> !r.result.Ok?
    ensures |v.items| > 0 && config.Some? && config.value != FirstItemKey ==>
      r == Walked(Raised(NextKeyError), if FirstItemKey in configs then [] else [FirstItemKey])
  {
    if |v.items| > 0 then
      match InputStep(inp, FirstItemKey, v.items[0], config)
      case Ok(_) =>
        Walked(Raised(NextKeyError), if config.Some? && Warns(FirstItemKey, inp.kind, config.value, configs) then [FirstItemKey] else [])
      case e => Walked(e, [])
    else InputWalk(v, config, configs, inp, 0)
  }

  /** `parse_input`. */
  function InputOf(v: Value, config: Option<string>, configs: seq<string>): Walked
    requires v.Table?
  {
    match TypeRead(v)
    case Ok(kind) =>
      var w := InputLoop(v, config, configs, Fresh.(kind := kind));
      if w.result.Ok? && w.result.value.name.None? then Walked(Raised("missing key: name"), w.warnings)
      else w
    case e => Walked(e.Fail(), [])
  }

  // ------------------------------------------------------------ methods

  /** The element loop shared by the string-list branches of
      `parse_config_input`: `list` grows by one slot per array element,
      element `i` read from `i + 1` (`fromSize`, the `sources` branch) or
      from `i - size + 1`. */
  method AppendStrings(list: seq<Slot<string>>, t: Value, fromSize: bool) returns (r: seq<Slot<string>>)
    requires t.Table?
    ensures r == list + Appended(t, if fromSize then |list| else 0, |t.items|)
  {
    var size := |list|;
    var base := if fromSize then size else 0;
    r := list;
    for i := size to size + |t.items|
      invariant r == list + Appended(t, base, i - size)
    {
      var item := RawGetI(t, if fromSize then i + 1 else i - size + 1);
      r := r + [if IsString(item) then Set(ToStr(item)) else Unset];
      assert Appended(t, base, i + 1 - size) == Appended(t, base, i - size) + [StrSlot(item)];
    }
  }

  /** `parse_config_input`. */
  method ParseConfigInput(key: string, value: Value, inp: Input) returns (r: Outcome<Option<Input>>)
    ensures r == ConfigStep(inp, key, value)
  {
    if key == "dependencies" {
      if !value.Table? {
        return Raised(key + ": expecting array");
      }
      if |value.items| == 0 {
        return Ok(Some(inp));
      }
      var ds := ParseDeps(value);
      if !ds.Ok? {
        return ds.Fail();
      }
      return Ok(Some(inp.(deps := inp.deps + ds.value)));
    }
    var k := ListOf(key, inp.kind);
    if k.None? {
      return Ok(None);
    }
    if !value.Table? {
      return Raised(key + ": expecting array");
    }
    if |value.items| == 0 {
      return Ok(Some(inp));
    }
    var grown := AppendStrings(List(inp, k.value), value, k.value == SourcesList);
    r := Ok(Some(WithList(inp, k.value, grown)));
  }

  /** The inner `lua_next` loop over the active configuration's table. */
  method ParseConfigTable(inp: Input, config: string, t: Value) returns (r: Outcome<Input>)
    requires t.Table?
    ensures r == ConfigLoop(inp, config, t)
  {
    if |t.items| > 0 {
      // the key "1" is never handled
      return Raised("Unknown key: " + config);
    }
    var cur := inp;
    for j := 0 to |t.fields|
      invariant ConfigWalk(cur, config, t, j) == ConfigWalk(inp, config, t, 0)
    {
      var h := ParseConfigInput(t.fields[j].key, t.fields[j].value, cur);
      if !h.Ok? {
        return h.Fail();
      }
      if h.value.None? {
        return Raised("Unknown key: " + config);
      }
      cur := h.value.value;
    }
    return Ok(cur);
  }

  /** The search through the declared configuration names. */
  method DeclaredConfig(key: string, configs: seq<string>) returns (found: bool)
    ensures found <==> key in configs
  {
    found := false;
    for i := 0 to |configs|
      invariant found <==> key in configs[..i]
    {
      if key == configs[i] {
        found := true;
        break;
      }
    }
    assert configs[..|configs|] == configs;
  }

  /** One pass of the top-level loop of `parse_input`; `warned` is whether it
      printed an unknown-key line. */
  method ParseInputField(inp: Input, key: string, value: Value, config: Option<string>, configs: seq<string>)
    returns (r: Outcome<Input>, warned: bool)
    ensures r == InputStep(inp, key, value, config)
    ensures r.Ok? ==> (warned <==> config.Some? && Warns(key, inp.kind, config.value, configs))
  {
    warned := false;
    if key == "name" {
      if !value.Str? {
        return Raised("name: expecting string"), false;
      }
      r := Ok(inp.(name := Some(value.s)));
    } else if key == "type" {
      r := Ok(inp);
    } else if config.None? {
      r := Undefined;
    } else if key == config.value {
      if !value.Table? {
        return Raised(key + ": expecting table"), false;
      }
      r := ParseConfigTable(inp, key, value);
    } else {
      var h := ParseConfigInput(key, value, inp);
      if !h.Ok? {
        return h.Fail(), false;
      }
      if h.value.Some? {
        r := Ok(h.value.value);
      } else {
        var declared := DeclaredConfig(key, configs);
        warned := !declared;
        r := Ok(inp);
      }
    }
  }

  /** The `type` lookup at the start of `parse_input`. */
  method ReadType(v: Value) returns (r: Outcome<ProjectType>)
    ensures r == TypeRead(v)
  {
    var t := GetField(v, "type");
    if t.Table? {
      var e := GetField(t, EnumKey);
      if e.Nil? {
        return Raised("type: expecting project_type enum");
      }
      r := Ok(TypeOfCode(Int32(ToInteger(e))));
    } else if !t.Nil? {
      r := Raised("type: expecting project_type enum");
    } else {
      r := Raised("missing key: type");
    }
  }

  lemma WalkOnce(v: Value, config: Option<string>, configs: seq<string>, inp: Input, i: nat)
    requires v.Table? && i < |v.fields|
    ensures var f := v.fields[i];
      var step := InputStep(inp, f.key, f.value, config);
      var w := InputWalk(v, config, configs, inp, i);
      if step.Ok? then
        var rest := InputWalk(v, config, configs, step.value, i + 1);
        w.result == rest.result
        && w.warnings == (if config.Some? && Warns(f.key, inp.kind, config.value, configs) then [f.key] else []) + rest.warnings
      else w == Walked(step, [])
  {
  }

  /** One pass of the top-level loop keeps the walk still to do in step
      with the warnings already given, or ends it with the step's error. */
  lemma WalkStep(v: Value, config: Option<string>, configs: seq<string>, inp0: Input, inp: Input, i: nat,
                 warnings: seq<string>, step: Outcome<Input>, warned: bool)
    requires v.Table? && i < |v.fields|
    requires InputWalk(v, config, configs, inp0, 0).result == InputWalk(v, config, configs, inp, i).result
    requires InputWalk(v, config, configs, inp0, 0).warnings == warnings + InputWalk(v, config, configs, inp, i).warnings
    requires step == InputStep(inp, v.fields[i].key, v.fields[i].value, config)
    requires step.Ok? ==> (warned <==> config.Some? && Warns(v.fields[i].key, inp.kind, config.value, configs))
    ensures !step.Ok? ==> InputWalk(v, config, configs, inp0, 0) == Walked(step, warnings)
    ensures step.Ok? ==> var mine := if warned then [v.fields[i].key] else [];
      && InputWalk(v, config, configs, inp0, 0).result == InputWalk(v, config, configs, step.value, i + 1).result
      && InputWalk(v, config, configs, inp0, 0).warnings == (warnings + mine) + InputWalk(v, config, configs, step.value, i + 1).warnings
  {
    WalkOnce(v, config, configs, inp, i);
    if step.Ok? {
      var mine := if warned then [v.fields[i].key] else [];
      var rest := InputWalk(v, config, configs, step.value, i + 1);
      assert warnings + (mine + rest.warnings) == (warnings + mine) + rest.warnings;
    } else {
      assert warnings + [] == warnings;
    }
  }

  /** The top-level `lua_next` loop of `parse_input`. */
  method WalkInput(v: Value, config: Option<string>, configs: seq<string>, inp0: Input) returns (r: Outcome<Input>, warnings: seq<string>)
    requires v.Table?
    ensures Walked(r, warnings) == InputLoop(v, config, configs, inp0)
  {
    if |v.items| > 0 {
      var step, warned := ParseInputField(inp0, FirstItemKey, v.items[0], config, configs);
      if !step.Ok? {
        return step, [];
      }
      return Raised(NextKeyError), if warned then [FirstItemKey] else [];
    }
    var inp := inp0;
    warnings := [];
    for i := 0 to |v.fields|
      invariant InputWalk(v, config, configs, inp0, 0).result == InputWalk(v, config, configs, inp, i).result
      invariant InputWalk(v, config, configs, inp0, 0).warnings == warnings + InputWalk(v, config, configs, inp, i).warnings
    {
      var key := v.fields[i].key;
      var step, warned := ParseInputField(inp, key, v.fields[i].value, config, configs);
      WalkStep(v, config, configs, inp0, inp, i, warnings, step, warned);
      if !step.Ok? {
        return step, warnings;
      }
      warnings := warnings + if warned then [key] else [];
      inp := step.value;
    }
    assert warnings + [] == warnings;
    r := Ok(inp);
  }

  /** `parse_input`: the outcome, and the keys it reported as unknown. */
  method ParseInput(v: Value, config: Option<string>, configs: seq<string>) returns (r: Outcome<Input>, warnings: seq<string>)
    requires v.Table?
    ensures Walked(r, warnings) == InputOf(v, config, configs)
  {
    var kind := ReadType(v);
    if !kind.Ok? {
      return kind.Fail(), [];
    }
    r, warnings := WalkInput(v, config, configs, Fresh.(kind := kind.value));
    if r.Ok? && r.value.name.None? {
      r := Raised("missing key: name");
    }
  }

  // ------------------------------------------------------------ properties

  /** Every list key but `sources` appends the array's elements, in order,
      after the entries earlier occurrences stored. */
  lemma ConfigAppendsInOrder(inp: Input, key: string, value: Value)
    requires ListOf(key, inp.kind).Some? && ListOf(key, inp.kind).value != SourcesList && value.Table?
    ensures var k := ListOf(key, inp.kind).value;
      ConfigStep(inp, key, value)
        == Ok(Some(WithList(inp, k, List(inp, k) + seq(|value.items|, j requires 0 <= j < |value.items| => StrSlot(value.items[j])))))
  {
    var k := ListOf(key, inp.kind).value;
    var elems := seq(|value.items|, j requires 0 <= j < |value.items| => StrSlot(value.items[j]));
    if |value.items| == 0 {
      assert List(inp, k) + elems == List(inp, k);
      assert WithList(inp, k, List(inp, k)) == inp;
    } else {
      assert Appended(value, Base(k, |List(inp, k)|), |value.items|) == elems;
    }
  }

  /** The `sources` branch reads element `m + j + 1` for the `j`-th new slot,
      `m` being the number of sources already stored: with `m > 0` it skips
      the array's first `m` elements and leaves the last `m` slots unwritten. */
  lemma SourcesReadFromOldSize(inp: Input, value: Value)
    requires value.Table? && |value.items| > 0
    ensures ConfigStep(inp, "sources", value).Ok? && ConfigStep(inp, "sources", value).value.Some?
    ensures var s := ConfigStep(inp, "sources", value).value.value.sources;
      var m := |inp.sources|;
      |s| == m + |value.items| && s[..m] == inp.sources
      && forall k :: m <= k < |s| ==> s[k] == if k < |value.items| then StrSlot(value.items[k]) else Unset
  {
    var m := |inp.sources|;
    var added := Appended(value, m, |value.items|);
    var s := inp.sources + added;
    assert ConfigStep(inp, "sources", value) == Ok(Some(inp.(sources := s)));
    assert s[..m] == inp.sources;
    forall k | m <= k < |s|
      ensures s[k] == if k < |value.items| then StrSlot(value.items[k]) else Unset
    {
      assert s[k] == added[k - m];
      assert added[k - m] == StrSlot(RawGetI(value, k + 1));
    }
  }

  /** A second `sources` array (say one at top level, then one in the
      configuration table) loses its first element where `includes` keeps it. */
  lemma SourcesSecondArrayShifted()
    ensures var inp := Fresh.(sources := [Set("a.c")], includes := [Set("a.h")]);
      var t := Table([], [Str("b.c")]);
      ConfigStep(inp, "sources", t) == Ok(Some(inp.(sources := [Set("a.c"), Unset])))
      && ConfigStep(inp, "includes", t) == Ok(Some(inp.(includes := [Set("a.h"), Set("b.c")])))
  {
    var inp := Fresh.(sources := [Set("a.c")], includes := [Set("a.h")]);
    var t := Table([], [Str("b.c")]);
    assert RawGetI(t, 2) == Nil && RawGetI(t, 1) == Str("b.c");
    assert ToStr(Str("b.c")) == "b.c";
    assert StrSlot(RawGetI(t, 2)) == Unset && StrSlot(RawGetI(t, 1)) == Set("b.c");
    assert Appended(t, 1, 1)[0] == Unset && Appended(t, 0, 1)[0] == Set("b.c");
    assert Appended(t, 1, 1) == [Unset];
    assert Appended(t, 0, 1) == [Set("b.c")];
    assert ConfigStep(inp, "sources", t) == Ok(Some(WithList(inp, SourcesList, [Set("a.c")] + [Unset])));
    assert ConfigStep(inp, "includes", t) == Ok(Some(WithList(inp, Includes, [Set("a.h")] + [Set("b.c")])));
    assert [Set("a.c")] + [Unset] == [Set("a.c"), Unset];
    assert [Set("a.h")] + [Set("b.c")] == [Set("a.h"), Set("b.c")];
  }

  /** `parse_config_input` with the `sources` branch indexing the array
      from 1, as the `includes` branch beside it does. */
  function IntendedConfigStep(inp: Input, key: string, value: Value): (r: Outcome<Option<Input>>)
    ensures r.Ok? && r.value.None? <==> !Recognised(key, inp.kind)
    ensures r.Ok? && r.value.Some? ==> Extends(inp, r.value.value)
  {
    if key == "sources" && value.Table? && |value.items| > 0 then
      Ok(Some(inp.(sources := inp.sources + Appended(value, 0, |value.items|))))
    else ConfigStep(inp, key, value)
  }

  /** Read as intended, every list key, `sources` included, appends the
      array's elements in order after what earlier occurrences stored. */
  lemma IntendedAppendsInOrder(inp: Input, key: string, value: Value)
    requires ListOf(key, inp.kind).Some? && value.Table?
    ensures var k := ListOf(key, inp.kind).value;
      IntendedConfigStep(inp, key, value)
        == Ok(Some(WithList(inp, k, List(inp, k) + seq(|value.items|, j requires 0 <= j < |value.items| => StrSlot(value.items[j])))))
  {
    var k := ListOf(key, inp.kind).value;
    var elems := seq(|value.items|, j requires 0 <= j < |value.items| => StrSlot(value.items[j]));
    if k != SourcesList {
      ConfigAppendsInOrder(inp, key, value);
    } else if |value.items| == 0 {
      assert List(inp, k) + elems == List(inp, k);
      assert WithList(inp, k, List(inp, k)) == inp;
    } else {
      assert Appended(value, 0, |value.items|) == elems;
    }
  }

  /** The second `sources` array of `SourcesSecondArrayShifted`, read as
      intended, keeps its element. */
  lemma IntendedSecondArrayKept()
    ensures var inp := Fresh.(sources := [Set("a.c")], includes := [Set("a.h")]);
      IntendedConfigStep(inp, "sources", Table([], [Str("b.c")]))
        == Ok(Some(inp.(sources := [Set("a.c"), Set("b.c")])))
  {
    var t := Table([], [Str("b.c")]);
    assert RawGetI(t, 1) == Str("b.c");
    assert ToStr(Str("b.c")) == "b.c";
    assert StrSlot(RawGetI(t, 1)) == Set("b.c");
    assert Appended(t, 0, 1)[0] == Set("b.c");
    assert Appended(t, 0, 1) == [Set("b.c")];
    assert [Set("a.c")] + [Set("b.c")] == [Set("a.c"), Set("b.c")];
  }

  /** A field `parse_input` lets through: a string name, an accepted type
      (read beforehand), and with an active configuration, a table of
      handled keys under its name and an array under every other handled
      key. Without an active configuration only `name` and `type` pass. */
  predicate Accepted(f: Field, kind: ProjectType, config: Option<string>) {
    if f.key == "name" then f.value.Str?
    else if f.key == "type" then true
    else
      config.Some?
      && (if f.key == config.value then
            f.value.Table? && |f.value.items| == 0 && forall g :: g in f.value.fields ==> Recognised(g.key, kind)
          else Recognised(f.key, kind) ==> f.value.Table?)
  }

  /** The top-level keys reported as unknown, in field order. */
  function UnknownKeys(fs: seq<Field>, kind: ProjectType, config: string, configs: seq<string>): (r: seq<string>)
    ensures forall k :: k in r ==> Warns(k, kind, config, configs)
  {
    if |fs| == 0 then []
    else (if Warns(fs[0].key, kind, config, configs) then [fs[0].key] else []) + UnknownKeys(fs[1..], kind, config, configs)
  }

  lemma {:induction false} WalkAccepted(v: Value, config: Option<string>, configs: seq<string>, inp: Input, i: nat)
    requires v.Table? && i <= |v.fields| && InputWalk(v, config, configs, inp, i).result.Ok?
    ensures forall f :: f in v.fields[i..] ==> Accepted(f, inp.kind, config)
    ensures InputWalk(v, config, configs, inp, i).result.value.kind == inp.kind
    decreases |v.fields| - i
  {
    if i < |v.fields| {
      var f := v.fields[i];
      var next := InputStep(inp, f.key, f.value, config).value;
      WalkAccepted(v, config, configs, next, i + 1);
      assert next.kind == inp.kind;
      assert Accepted(f, inp.kind, config);
      assert v.fields[i..] == [f] + v.fields[i + 1..];
    }
  }

  lemma {:induction false} WalkName(v: Value, config: Option<string>, configs: seq<string>, inp: Input, i: nat)
    requires v.Table? && i <= |v.fields| && InputWalk(v, config, configs, inp, i).result.Ok?
    ensures InputWalk(v, config, configs, inp, i).result.value.name == TextPart(Lookup(v.fields[i..], "name"), inp.name)
    decreases |v.fields| - i
  {
    if i == |v.fields| {
      assert v.fields[i..] == [];
    } else {
      var f := v.fields[i];
      var next := InputStep(inp, f.key, f.value, config).value;
      WalkName(v, config, configs, next, i + 1);
      assert next.name == if f.key == "name" then Some(f.value.s) else inp.name;
      assert v.fields[i..] == [f] + v.fields[i + 1..];
      LookupAppend([f], v.fields[i + 1..], "name");
      LookupOne(f);
    }
  }

  lemma {:induction false} WalkWarnings(v: Value, config: string, configs: seq<string>, inp: Input, i: nat)
    requires v.Table? && i <= |v.fields| && InputWalk(v, Some(config), configs, inp, i).result.Ok?
    ensures InputWalk(v, Some(config), configs, inp, i).warnings == UnknownKeys(v.fields[i..], inp.kind, config, configs)
    decreases |v.fields| - i
  {
    if i < |v.fields| {
      var f := v.fields[i];
      var next := InputStep(inp, f.key, f.value, Some(config)).value;
      WalkWarnings(v, config, configs, next, i + 1);
      assert next.kind == inp.kind;
      assert v.fields[i..][1..] == v.fields[i + 1..];
    }
  }

  /** What `parse_input` guarantees: the type is read before any field; a
      table with an array part fails, after warning about the key "1" unless
      it names a configuration; and a record comes back only when the type
      is an enum value, the last `name` is a string, every field is
      accepted, and the reported keys are the unknown ones (a key naming a
      declared configuration is never reported). */
  lemma InputGuarantees(v: Value, config: Option<string>, configs: seq<string>)
    requires v.Table?
    ensures !TypeRead(v).Ok? ==> InputOf(v, config, configs) == Walked(TypeRead(v).Fail(), [])
    ensures TypeRead(v).Ok? && |v.items| > 0 && config.Some? && config.value != FirstItemKey ==>
      InputOf(v, config, configs) == Walked(Raised(NextKeyError), if FirstItemKey in configs then [] else [FirstItemKey])
    ensures var w := InputOf(v, config, configs);
      w.result.Ok? ==>
        && TypeRead(v).Ok? && |v.items| == 0 && w.result.value.kind == TypeRead(v).value
        && Lookup(v.fields, "name").Some? && Lookup(v.fields, "name").value.Str?
        && w.result.value.name == Some(Lookup(v.fields, "name").value.s)
        && (forall f :: f in v.fields ==> Accepted(f, w.result.value.kind, config))
        && (config.Some? ==> w.warnings == UnknownKeys(v.fields, w.result.value.kind, config.value, configs))
  {
    if TypeRead(v).Ok? && InputOf(v, config, configs).result.Ok? {
      WalkAccepted(v, config, configs, Fresh.(kind := TypeRead(v).value), 0);
      WalkName(v, config, configs, Fresh.(kind := TypeRead(v).value), 0);
      if config.Some? {
        WalkWarnings(v, config.value, configs, Fresh.(kind := TypeRead(v).value), 0);
      }
      assert v.fields[0..] == v.fields;
    }
  }
}
