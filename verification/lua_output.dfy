/** `dump_output` and `parse_output` of src/lua_env.cpp: a project
    record turned into a Lua table and read back. The parser walks the
    table's fields in `lua_next` order, overwriting one part of a zeroed
    record per recognised key; a wrong value type raises a Lua error, and an
    empty `sources` or `dependencies` array reaches a `continue` that skips
    the pop of the value and leaves the Lua stack corrupted. */
module LuaOutput {
  import opened Wrappers
  import opened LuaValue
  import opened Project

  /** An array element the parser allocated: written, or left as whatever
      `malloc`/`realloc` returned. */
  datatype Slot<+T> = Set(value: T) | Unset

  /** How a parse ends: a value, a Lua error raised with `luaL_error` (or by
      the VM), or undefined behaviour. */
  datatype Outcome<+T> = Ok(value: T) | Raised(msg: string) | Undefined
  {
    /** The same failure, at another result type. */
    function Fail<U>(): (r: Outcome<U>)
      requires !Ok?
      ensures r.Raised? == Raised? && (Raised? ==> r.msg == msg)
    {
      if Raised? then Raised(msg) else Undefined
    }
  }

  /** `output::source` as parsed: the file slot and its own options. */
  datatype ParsedSource = ParsedSource(file: Slot<string>, compileOptions: Option<string>)

  /** `lua::output` as `parse_output` fills it; null pointers are `None`. */
  datatype Parsed = Parsed(
    name: Option<string>,
    kind: ProjectType,
    sources: seq<Slot<ParsedSource>>,
    compileOptions: Option<string>,
    linkOptions: Option<string>,
    deps: seq<Slot<Parsed>>)

  /** `output out {0}`. */
  const Zeroed := Parsed(None, Sources, [], None, None, [])

  const EnumKey := "__project_type_enum_value"

  // ------------------------------------------------------------ reading

  /** One element of a `sources` array. The parser indexes the value it read
      under `file` (not the element) for `compile_options`. A string or
      number file has been turned into a string in place by `lua_tostring`,
      and indexing a string finds nothing (the string library has no such
      entry); a table file is read in place of the element; any other file
      value cannot be indexed. */
  function SourceItem(item: Value): (r: Outcome<Slot<ParsedSource>>)
    ensures !item.Table? ==> r == Ok(Unset)
    ensures item.Table? && IsString(GetField(item, "file")) ==>
      r == Ok(Set(ParsedSource(Set(ToStr(GetField(item, "file"))), None)))
    ensures r.Ok? && r.value.Set? ==> (r.value.value.file.Set? <==> IsString(GetField(item, "file")))
    ensures r.Raised? <==> item.Table? && !IsString(GetField(item, "file")) && !GetField(item, "file").Table?
  {
    if !item.Table? then Ok(Unset)
    else
      var file := GetField(item, "file");
      match file
      case Str(_) => Ok(Set(ParsedSource(Set(ToStr(file)), None)))
      case Integer(_) => Ok(Set(ParsedSource(Set(ToStr(file)), None)))
      case Table(_, _) =>
        var opts := GetField(file, "compile_options");
        Ok(Set(ParsedSource(Unset, if IsString(opts) then Some(ToStr(opts)) else None)))
      case _ => Raised("attempt to index a " + TypeName(file) + " value")
  }

  /** The first `n` elements of a `sources` array, stopping at the first error. */
  function SourcesOf(t: Value, n: nat): Outcome<seq<Slot<ParsedSource>>>
    requires t.Table? && n <= |t.items|
  {
    if n == 0 then Ok([])
    else
      match SourcesOf(t, n - 1)
      case Ok(s) =>
        (match SourceItem(t.items[n - 1])
         case Ok(x) => Ok(s + [x])
         case e => e.Fail())
      case e => e
  }

  /** The record `parse_output` returns for table `v`. An array part is
      visited first: its key "1" is an unknown key, and the `lua_next` after
      it raises. */
  function OutputOf(v: Value): Outcome<Parsed>
    requires v.Table?
    decreases v, 3, 0
  {
    if |v.items| > 0 then
      match FieldStep(Zeroed, FirstItemKey, v.items[0])
      case Ok(_) => Raised(NextKeyError)
      case e => e
    else Walk(v, Zeroed, 0)
  }

  /** The fields from index `i` on, applied to `p` in order. */
  function Walk(v: Value, p: Parsed, i: nat): Outcome<Parsed>
    requires v.Table? && i <= |v.fields|
    decreases v, 2, |v.fields| - i
  {
    if i == |v.fields| then Ok(p)
    else
      match FieldStep(p, v.fields[i].key, v.fields[i].value)
      case Ok(q) => Walk(v, q, i + 1)
      case e => e
  }

  /** One pass of the `lua_next` loop. */
  function FieldStep(p: Parsed, key: string, value: Value): Outcome<Parsed>
    decreases value, 1, 0
  {
    if key == "name" then
      if value.Str? then Ok(p.(name := Some(value.s))) else Raised("name: expecting string")
    else if key == "type" then
      if !value.Table? || GetField(value, EnumKey).Nil? then Raised("type: expecting project_type enum")
      else Ok(p.(kind := TypeOfCode(Int32(ToInteger(GetField(value, EnumKey))))))
    else if key == "sources" then
      if !value.Table? then Raised("sources: expecting array")
      else if |value.items| == 0 then Undefined
      else
        match SourcesOf(value, |value.items|)
        case Ok(s) => Ok(p.(sources := s))
        case e => e.Fail()
    else if key == "compile_options" then
      if value.Str? then Ok(p.(compileOptions := Some(value.s))) else Raised("compile_options: expecting string")
    else if key == "link_options" then
      if value.Str? then Ok(p.(linkOptions := Some(value.s))) else Raised("link_options: expecting string")
    else if key == "dependencies" then
      if !value.Table? then Raised("dependencies: expecting array")
      else if |value.items| == 0 then Undefined
      else
        match DepsOf(value, |value.items|)
        case Ok(ds) => Ok(p.(deps := ds))
        case e => e.Fail()
    else Ok(p)
  }

  /** The first `n` elements of a `dependencies` array: tables are parsed
      recursively, anything else leaves its slot unwritten. */
  function DepsOf(t: Value, n: nat): Outcome<seq<Slot<Parsed>>>
    requires t.Table? && n <= |t.items|
    decreases t, 0, n
  {
    if n == 0 then Ok([])
    else
      match DepsOf(t, n - 1)
      case Ok(ds) =>
        var item := t.items[n - 1];
        if item.Table? then
          match OutputOf(item)
          case Ok(d) => Ok(ds + [Set(d)])
          case e => e.Fail()
        else Ok(ds + [Unset])
      case e => e
  }

  // ------------------------------------------------------------ methods

  /** `parse_output`. */
  method ParseOutput(v: Value) returns (r: Outcome<Parsed>)
    requires v.Table?
    ensures r == OutputOf(v)
    decreases v, 3, 0
  {
    var out := Zeroed;
    if |v.items| > 0 {
      var step := ParseField(out, FirstItemKey, v.items[0]);
      if !step.Ok? {
        return step;
      }
      return Raised(NextKeyError);
    }
    for i := 0 to |v.fields|
      invariant Walk(v, out, i) == OutputOf(v)
    {
      var step := ParseField(out, v.fields[i].key, v.fields[i].value);
      if !step.Ok? {
        return step;
      }
      out := step.value;
    }
    return Ok(out);
  }

  /** The body of the `lua_next` loop in `parse_output`. */
  method ParseField(out: Parsed, key: string, value: Value) returns (r: Outcome<Parsed>)
    ensures r == FieldStep(out, key, value)
    decreases value, 1, 0
  {
    if key == "name" {
      if !value.Str? {
        return Raised("name: expecting string");
      }
      r := Ok(out.(name := Some(value.s)));
    } else if key == "type" {
      if !value.Table? {
        return Raised("type: expecting project_type enum");
      }
      var e := GetField(value, EnumKey);
      if e.Nil? {
        return Raised("type: expecting project_type enum");
      }
      r := Ok(out.(kind := TypeOfCode(Int32(ToInteger(e)))));
    } else if key == "sources" {
      if !value.Table? {
        return Raised("sources: expecting array");
      }
      if |value.items| == 0 {
        return Undefined;
      }
      var s := ParseSources(value);
      r := if s.Ok? then Ok(out.(sources := s.value)) else s.Fail();
    } else if key == "compile_options" {
      if !value.Str? {
        return Raised("compile_options: expecting string");
      }
      r := Ok(out.(compileOptions := Some(value.s)));
    } else if key == "link_options" {
      if !value.Str? {
        return Raised("link_options: expecting string");
      }
      r := Ok(out.(linkOptions := Some(value.s)));
    } else if key == "dependencies" {
      if !value.Table? {
        return Raised("dependencies: expecting array");
      }
      if |value.items| == 0 {
        return Undefined;
      }
      var ds := ParseDeps(value);
      r := if ds.Ok? then Ok(out.(deps := ds.value)) else ds.Fail();
    } else {
      r := Ok(out);
    }
  }

  /** The element loop of the `sources` branch. */
  method ParseSources(t: Value) returns (r: Outcome<seq<Slot<ParsedSource>>>)
    requires t.Table?
    ensures r == SourcesOf(t, |t.items|)
  {
    var sources := [];
    for i := 0 to |t.items|
      invariant SourcesOf(t, i) == Ok(sources)
    {
      var item := SourceItem(t.items[i]);
      if !item.Ok? {
        SourcesStopped(t, i + 1, |t.items|);
        return item.Fail();
      }
      sources := sources + [item.value];
    }
    return Ok(sources);
  }

  /** The element loop of the `dependencies` branch. */
  method ParseDeps(t: Value) returns (r: Outcome<seq<Slot<Parsed>>>)
    requires t.Table?
    ensures r == DepsOf(t, |t.items|)
    decreases t, 0, 0
  {
    var deps := [];
    for i := 0 to |t.items|
      invariant DepsOf(t, i) == Ok(deps)
    {
      var item := t.items[i];
      if item.Table? {
        var d := ParseOutput(item);
        if !d.Ok? {
          DepsStopped(t, i + 1, |t.items|);
          return d.Fail();
        }
        deps := deps + [Set(d.value)];
      } else {
        deps := deps + [Unset];
      }
    }
    return Ok(deps);
  }

  /** Once an element fails, the failure is the array's result. */
  lemma {:induction false} SourcesStopped(t: Value, n: nat, m: nat)
    requires t.Table? && n <= m <= |t.items| && !SourcesOf(t, n).Ok?
    ensures SourcesOf(t, m) == SourcesOf(t, n)
    decreases m
  {
    if m > n {
      SourcesStopped(t, n, m - 1);
    }
  }

  lemma {:induction false} DepsStopped(t: Value, n: nat, m: nat)
    requires t.Table? && n <= m <= |t.items| && !DepsOf(t, n).Ok?
    ensures DepsOf(t, m) == DepsOf(t, n)
    decreases m
  {
    if m > n {
      DepsStopped(t, n, m - 1);
    }
  }

  // ------------------------------------------------------------ order

  /** Whether a field on its own is accepted by the loop body. */
  predicate Passes(f: Field) {
    FieldStep(Zeroed, f.key, f.value).Ok?
  }

  /** The walk succeeds exactly when every remaining field is accepted. */
  lemma {:induction false} WalkOk(v: Value, p: Parsed, i: nat)
    requires v.Table? && i <= |v.fields|
    ensures Walk(v, p, i).Ok? <==> forall f :: f in v.fields[i..] ==> Passes(f)
    decreases |v.fields| - i
  {
    if i < |v.fields| {
      var f := v.fields[i];
      // whether a field is accepted does not depend on the record so far
      assert FieldStep(p, f.key, f.value).Ok? == Passes(f);
      assert v.fields[i..] == [f] + v.fields[i + 1..];
      if FieldStep(p, f.key, f.value).Ok? {
        WalkOk(v, FieldStep(p, f.key, f.value).value, i + 1);
      }
    }
  }

  /** `parse_output` succeeds exactly when the table has no array part and
      every field is accepted; with an array part it raises at the `lua_next`
      after the first element. */
  lemma OutputOk(v: Value)
    requires v.Table?
    ensures OutputOf(v).Ok? <==> |v.items| == 0 && forall f :: f in v.fields ==> Passes(f)
    ensures |v.items| > 0 ==> OutputOf(v) == Raised(NextKeyError)
  {
    WalkOk(v, Zeroed, 0);
    assert v.fields[0..] == v.fields;
  }

  /** Each part of the record as read from the value under its key
      (`None`: the key is absent, and the part keeps `dflt`). */
  function TextPart(x: Option<Value>, dflt: Option<string>): Option<string> {
    match x
    case Some(v) => if v.Str? then Some(v.s) else None
    case None => dflt
  }

  function KindPart(x: Option<Value>, dflt: ProjectType): ProjectType {
    match x
    case Some(t) => TypeOfCode(Int32(ToInteger(GetField(t, EnumKey))))
    case None => dflt
  }

  function SourcesPart(x: Option<Value>, dflt: seq<Slot<ParsedSource>>): seq<Slot<ParsedSource>> {
    match x
    case Some(t) => if t.Table? && SourcesOf(t, |t.items|).Ok? then SourcesOf(t, |t.items|).value else []
    case None => dflt
  }

  function DepsPart(x: Option<Value>, dflt: seq<Slot<Parsed>>): seq<Slot<Parsed>> {
    match x
    case Some(t) => if t.Table? && DepsOf(t, |t.items|).Ok? then DepsOf(t, |t.items|).value else []
    case None => dflt
  }

  /** The record fields `fs` describe when each part is read once, from the
      value stored under its key; parts whose key is absent keep `p`'s. */
  function Described(fs: seq<Field>, p: Parsed): Parsed {
    Parsed(
      TextPart(Lookup(fs, "name"), p.name),
      KindPart(Lookup(fs, "type"), p.kind),
      SourcesPart(Lookup(fs, "sources"), p.sources),
      TextPart(Lookup(fs, "compile_options"), p.compileOptions),
      TextPart(Lookup(fs, "link_options"), p.linkOptions),
      DepsPart(Lookup(fs, "dependencies"), p.deps))
  }

  /** An accepted field sets the one part its key names. */
  lemma StepDescribed(p: Parsed, f: Field)
    requires FieldStep(p, f.key, f.value).Ok?
    ensures FieldStep(p, f.key, f.value).value == Described([f], p)
  {
    assert [f][..0] == [];
  }

  lemma TextAppend(a: seq<Field>, b: seq<Field>, key: string, d: Option<string>)
    ensures TextPart(Lookup(b, key), TextPart(Lookup(a, key), d)) == TextPart(Lookup(a + b, key), d)
  {
    LookupAppend(a, b, key);
  }

  lemma KindAppend(a: seq<Field>, b: seq<Field>, d: ProjectType)
    ensures KindPart(Lookup(b, "type"), KindPart(Lookup(a, "type"), d)) == KindPart(Lookup(a + b, "type"), d)
  {
    LookupAppend(a, b, "type");
  }

  lemma SourcesAppend(a: seq<Field>, b: seq<Field>, d: seq<Slot<ParsedSource>>)
    ensures SourcesPart(Lookup(b, "sources"), SourcesPart(Lookup(a, "sources"), d))
         == SourcesPart(Lookup(a + b, "sources"), d)
  {
    LookupAppend(a, b, "sources");
  }

  lemma DepsAppend(a: seq<Field>, b: seq<Field>, d: seq<Slot<Parsed>>)
    ensures DepsPart(Lookup(b, "dependencies"), DepsPart(Lookup(a, "dependencies"), d))
         == DepsPart(Lookup(a + b, "dependencies"), d)
  {
    LookupAppend(a, b, "dependencies");
  }

  /** Describing `a` and then `b` describes `a + b`: later fields win. */
  lemma DescribedAppend(a: seq<Field>, b: seq<Field>, p: Parsed)
    ensures Described(b, Described(a, p)) == Described(a + b, p)
  {
    TextAppend(a, b, "name", p.name);
    KindAppend(a, b, p.kind);
    SourcesAppend(a, b, p.sources);
    TextAppend(a, b, "compile_options", p.compileOptions);
    TextAppend(a, b, "link_options", p.linkOptions);
    DepsAppend(a, b, p.deps);
  }

  /** A successful walk builds the described record. */
  lemma {:induction false} WalkDescribed(v: Value, p: Parsed, i: nat)
    requires v.Table? && i <= |v.fields| && Walk(v, p, i).Ok?
    ensures Walk(v, p, i).value == Described(v.fields[i..], p)
    decreases |v.fields| - i
  {
    if i == |v.fields| {
      assert v.fields[i..] == [];
    } else {
      var f := v.fields[i];
      var q := FieldStep(p, f.key, f.value).value;
      WalkDescribed(v, q, i + 1);
      assert v.fields[i..] == [f] + v.fields[i + 1..];
      StepDescribed(p, f);
      DescribedAppend([f], v.fields[i + 1..], p);
    }
  }

  predicate DistinctKeys(fs: seq<Field>) {
    forall i, j :: 0 <= i < j < |fs| ==> fs[i].key != fs[j].key
  }

  /** With distinct keys, a lookup finds exactly the field present. */
  lemma LookupMember(fs: seq<Field>, key: string, x: Value)
    requires DistinctKeys(fs) && Field(key, x) in fs
    ensures Lookup(fs, key) == Some(x)
  {
    var i :| 0 <= i < |fs| && fs[i] == Field(key, x);
    var j :| 0 <= j < |fs| && fs[j] == Field(key, Lookup(fs, key).value);
    assert !(i < j) && !(j < i);
  }

  lemma LookupCarries(fs: seq<Field>, gs: seq<Field>, key: string)
    requires DistinctKeys(gs) && multiset(fs) == multiset(gs)
    ensures Lookup(fs, key).Some? ==> Lookup(gs, key) == Lookup(fs, key)
  {
    if Lookup(fs, key).Some? {
      var x := Lookup(fs, key).value;
      var i :| 0 <= i < |fs| && fs[i] == Field(key, x);
      assert fs[i] in multiset(gs);
      LookupMember(gs, key, x);
    }
  }

  lemma SameLookups(fs: seq<Field>, gs: seq<Field>, key: string)
    requires DistinctKeys(fs) && DistinctKeys(gs) && multiset(fs) == multiset(gs)
    ensures Lookup(fs, key) == Lookup(gs, key)
  {
    LookupCarries(fs, gs, key);
    LookupCarries(gs, fs, key);
  }

  /** `lua_next` may visit a table's fields in any order: whether the parse
      succeeds, and the record it then returns, do not depend on it. */
  lemma OutputOrderFree(v: Value, w: Value)
    requires v.Table? && w.Table? && multiset(v.fields) == multiset(w.fields) && v.items == w.items
    requires DistinctKeys(v.fields) && DistinctKeys(w.fields)
    ensures OutputOf(v).Ok? <==> OutputOf(w).Ok?
    ensures OutputOf(v).Ok? ==> OutputOf(v) == OutputOf(w)
  {
    OutputOk(v);
    OutputOk(w);
    assert forall f :: f in v.fields <==> f in w.fields by {
      forall f ensures f in v.fields <==> f in w.fields {
        assert f in v.fields <==> f in multiset(v.fields);
        assert f in w.fields <==> f in multiset(w.fields);
      }
    }
    if OutputOf(v).Ok? {
      WalkDescribed(v, Zeroed, 0);
      WalkDescribed(w, Zeroed, 0);
      SameLookups(v.fields, w.fields, "name");
      SameLookups(v.fields, w.fields, "type");
      SameLookups(v.fields, w.fields, "sources");
      SameLookups(v.fields, w.fields, "compile_options");
      SameLookups(v.fields, w.fields, "link_options");
      SameLookups(v.fields, w.fields, "dependencies");
    }
  }

  // ------------------------------------------------------------ dumping

  /** The table `dump_output` writes for one source: its `file`, and its
      `compile_options` when set. */
  function DumpSource(s: Source): (v: Value)
    ensures v.Table? && v.items == []
    ensures GetField(v, "file") == Str(s.file)
    ensures GetField(v, "compile_options") == if s.compileOptions.Some? then Str(s.compileOptions.value) else Nil
  {
    var f := Field("file", Str(s.file));
    var opts := OptionField("compile_options", s.compileOptions);
    LookupAppend([f], opts, "file");
    LookupAppend([f], opts, "compile_options");
    LookupOne(f);
    LookupOption("compile_options", s.compileOptions);
    Table([f] + opts, [])
  }

  /** A field written only when the pointer is not null. */
  function OptionField(key: string, x: Option<string>): seq<Field> {
    if x.Some? then [Field(key, Str(x.value))] else []
  }

  function TypeField(o: Output): Field {
    Field("type", Table([Field(EnumKey, Integer(Int32(o.kind.Code())))], []))
  }

  /** `sources`, written when the array is not empty. */
  function SourcesField(o: Output): seq<Field> {
    if |o.sources| == 0 then []
    else [Field("sources", Table([], seq(|o.sources|, i requires 0 <= i < |o.sources| => DumpSource(o.sources[i]))))]
  }

  /** `dependencies`, written when the array is not empty, each one dumped
      the same way. */
  function DepsField(o: Output): seq<Field>
    decreases o, 0
  {
    if |o.deps| == 0 then []
    else [Field("dependencies", Table([], seq(|o.deps|, i requires 0 <= i < |o.deps| => Dump(o.deps[i]))))]
  }

  /** `dump_output`: the fields in the order the function sets them. The
      pre- and post-build commands are not written. */
  function Dump(o: Output): (v: Value)
    ensures v.Table? && v.items == []
    ensures |v.fields| == 2 + (if |o.sources| > 0 then 1 else 0) + (if o.compileOptions.Some? then 1 else 0)
      + (if o.linkOptions.Some? then 1 else 0) + (if |o.deps| > 0 then 1 else 0)
    decreases o, 1
  {
    Table(
      [Field("name", Str(o.name)), TypeField(o)]
        + SourcesField(o)
        + OptionField("compile_options", o.compileOptions)
        + OptionField("link_options", o.linkOptions)
        + DepsField(o),
      [])
  }

  /** What `parse_output` gives back for a dumped record: everything but the
      per-source options, which it looks up on the file string. */
  function Restored(o: Output): (p: Parsed)
    ensures |p.sources| == |o.sources| && |p.deps| == |o.deps|
    decreases o
  {
    Parsed(
      Some(o.name),
      TypeOfCode(Int32(o.kind.Code())),
      seq(|o.sources|, i requires 0 <= i < |o.sources| => Set(ParsedSource(Set(o.sources[i].file), None))),
      o.compileOptions,
      o.linkOptions,
      seq(|o.deps|, i requires 0 <= i < |o.deps| => Set(Restored(o.deps[i]))))
  }

  /** A dumped source reads back as its file, without options. */
  lemma DumpedSourceRead(s: Source)
    ensures SourceItem(DumpSource(s)) == Ok(Set(ParsedSource(Set(s.file), None)))
  {
    assert ToStr(Str(s.file)) == s.file;
  }

  /** The element loop succeeds when every element it reads does, and
      collects what they give. */
  lemma {:induction false} SourcesOfItems(t: Value, xs: seq<Slot<ParsedSource>>, n: nat)
    requires t.Table? && n <= |xs| <= |t.items|
    requires forall i :: 0 <= i < |xs| ==> SourceItem(t.items[i]) == Ok(xs[i])
    ensures SourcesOf(t, n) == Ok(xs[..n])
  {
    if n > 0 {
      SourcesOfItems(t, xs, n - 1);
      assert xs[..n] == xs[..n - 1] + [xs[n - 1]];
    }
  }

  lemma SourcesRoundTrip(ss: seq<Source>, t: Value, n: nat)
    requires t.Table? && |t.items| == |ss| && forall i :: 0 <= i < |ss| ==> t.items[i] == DumpSource(ss[i])
    requires n <= |ss|
    ensures SourcesOf(t, n).Ok? && |SourcesOf(t, n).value| == n
    ensures forall i :: 0 <= i < n ==> SourcesOf(t, n).value[i] == Set(ParsedSource(Set(ss[i].file), None))
  {
    var xs := seq(|ss|, i requires 0 <= i < |ss| => Set(ParsedSource(Set(ss[i].file), None)));
    forall i | 0 <= i < |ss| ensures SourceItem(t.items[i]) == Ok(xs[i]) {
      DumpedSourceRead(ss[i]);
    }
    SourcesOfItems(t, xs, n);
  }

  /** The dependency loop succeeds when every element is a table that
      `parse_output` accepts, and collects the records. */
  lemma {:induction false} DepsOfItems(t: Value, xs: seq<Parsed>, n: nat)
    requires t.Table? && n <= |xs| <= |t.items|
    requires forall i :: 0 <= i < |xs| ==> t.items[i].Table? && OutputOf(t.items[i]) == Ok(xs[i])
    ensures DepsOf(t, n).Ok? && |DepsOf(t, n).value| == n
    ensures forall i :: 0 <= i < n ==> DepsOf(t, n).value[i] == Set(xs[i])
  {
    if n > 0 {
      DepsOfItems(t, xs, n - 1);
      var prev := DepsOf(t, n - 1).value;
      assert DepsOf(t, n) == Ok(prev + [Set(xs[n - 1])]);
    }
  }

  lemma DepsRoundTrip(ds: seq<Output>, t: Value, n: nat)
    requires t == Table([], seq(|ds|, i requires 0 <= i < |ds| => Dump(ds[i])))
    requires n <= |ds|
    ensures DepsOf(t, n).Ok? && |DepsOf(t, n).value| == n
    ensures forall i :: 0 <= i < n ==> DepsOf(t, n).value[i] == Set(Restored(ds[i]))
    decreases ds, 0, n
  {
    var xs := seq(|ds|, i requires 0 <= i < |ds| => Restored(ds[i]));
    forall i | 0 <= i < |ds| ensures t.items[i].Table? && OutputOf(t.items[i]) == Ok(xs[i]) {
      RoundTrip(ds[i]);
    }
    DepsOfItems(t, xs, n);
  }

  lemma LookupOne(f: Field)
    ensures forall k :: Lookup([f], k) == if k == f.key then Some(f.value) else None
  {
    assert [f][..0] == [];
  }

  lemma LookupOption(key: string, x: Option<string>)
    ensures forall k :: Lookup(OptionField(key, x), k) == if k == key && x.Some? then Some(Str(x.value)) else None
  {
    if x.Some? {
      LookupOne(Field(key, Str(x.value)));
    }
  }

  /** The dumped name and type set the first two parts. */
  lemma DescribedHead(o: Output)
    ensures Described([Field("name", Str(o.name)), TypeField(o)], Zeroed)
         == Zeroed.(name := Some(o.name), kind := TypeOfCode(Int32(o.kind.Code())))
  {
    var n := Field("name", Str(o.name));
    var t := TypeField(o);
    DescribedAppend([n], [t], Zeroed);
    assert [n] + [t] == [n, t];
    LookupOne(t.value.fields[0]);
    LookupOne(n);
    LookupOne(t);
  }

  lemma DescribedSources(o: Output, p: Parsed)
    requires p.sources == []
    ensures Described(SourcesField(o), p) == p.(sources := Restored(o).sources)
  {
    if |o.sources| > 0 {
      var f := SourcesField(o)[0];
      SourcesRoundTrip(o.sources, f.value, |o.sources|);
      LookupOne(f);
    }
  }

  lemma DescribedCompileOptions(x: Option<string>, p: Parsed)
    requires p.compileOptions == None
    ensures Described(OptionField("compile_options", x), p) == p.(compileOptions := x)
  {
    LookupOption("compile_options", x);
  }

  lemma DescribedLinkOptions(x: Option<string>, p: Parsed)
    requires p.linkOptions == None
    ensures Described(OptionField("link_options", x), p) == p.(linkOptions := x)
  {
    LookupOption("link_options", x);
  }

  lemma DescribedOptions(o: Output, p: Parsed)
    requires p.compileOptions == None && p.linkOptions == None
    ensures Described(OptionField("compile_options", o.compileOptions) + OptionField("link_options", o.linkOptions), p)
         == p.(compileOptions := o.compileOptions, linkOptions := o.linkOptions)
  {
    var co := OptionField("compile_options", o.compileOptions);
    var lo := OptionField("link_options", o.linkOptions);
    DescribedAppend(co, lo, p);
    DescribedCompileOptions(o.compileOptions, p);
    DescribedLinkOptions(o.linkOptions, p.(compileOptions := o.compileOptions));
  }

  lemma DescribedDeps(o: Output, p: Parsed)
    requires p.deps == []
    ensures Described(DepsField(o), p) == p.(deps := Restored(o).deps)
    decreases o, 0, |o.deps| + 1
  {
    if |o.deps| > 0 {
      var f := DepsField(o)[0];
      DepsRoundTrip(o.deps, f.value, |o.deps|);
      LookupOne(f);
      assert DepsPart(Some(f.value), p.deps) == DepsOf(f.value, |o.deps|).value;
      assert DepsOf(f.value, |o.deps|).value == Restored(o).deps;
    }
  }

  lemma HeadPasses(o: Output)
    ensures Passes(Field("name", Str(o.name))) && Passes(TypeField(o))
  {
    LookupOne(TypeField(o).value.fields[0]);
  }

  lemma SourcesPass(o: Output)
    ensures forall f :: f in SourcesField(o) ==> Passes(f)
  {
    if |o.sources| > 0 {
      SourcesRoundTrip(o.sources, SourcesField(o)[0].value, |o.sources|);
    }
  }

  lemma OptionPasses(key: string, x: Option<string>)
    requires key == "compile_options" || key == "link_options"
    ensures forall f :: f in OptionField(key, x) ==> Passes(f)
  {
  }

  lemma DepsPass(o: Output)
    ensures forall f :: f in DepsField(o) ==> Passes(f)
    decreases o, 0, |o.deps| + 1
  {
    if |o.deps| > 0 {
      DepsRoundTrip(o.deps, DepsField(o)[0].value, |o.deps|);
    }
  }

  /** Every field `dump_output` writes is accepted. */
  lemma DumpPasses(o: Output)
    ensures forall f :: f in Dump(o).fields ==> Passes(f)
    decreases o, 0, |o.deps| + 2
  {
    HeadPasses(o);
    SourcesPass(o);
    OptionPasses("compile_options", o.compileOptions);
    OptionPasses("link_options", o.linkOptions);
    DepsPass(o);
  }

  /** `parse_output` reads back what `dump_output` wrote, except the
      per-source options. */
  lemma {:induction false} RoundTrip(o: Output)
    ensures OutputOf(Dump(o)) == Ok(Restored(o))
    decreases o, 1, 0
  {
    var v := Dump(o);
    var head := [Field("name", Str(o.name)), TypeField(o)];
    var opts := OptionField("compile_options", o.compileOptions) + OptionField("link_options", o.linkOptions);
    assert v.fields == (head + SourcesField(o)) + opts + DepsField(o);
    DumpPasses(o);
    WalkOk(v, Zeroed, 0);
    assert v.fields[0..] == v.fields;
    WalkDescribed(v, Zeroed, 0);
    DescribedAppend(head, SourcesField(o), Zeroed);
    DescribedAppend(head + SourcesField(o), opts, Zeroed);
    DescribedAppend((head + SourcesField(o)) + opts, DepsField(o), Zeroed);
    DescribedHead(o);
    DescribedSources(o, Described(head, Zeroed));
    DescribedOptions(o, Described(head + SourcesField(o), Zeroed));
    DescribedDeps(o, Described((head + SourcesField(o)) + opts, Zeroed));
  }

  /** The same holds for any order in which Lua hands the fields back. */
  lemma RoundTripAnyOrder(o: Output, w: Value)
    requires w.Table? && multiset(w.fields) == multiset(Dump(o).fields) && w.items == Dump(o).items
    requires DistinctKeys(w.fields)
    ensures OutputOf(w) == Ok(Restored(o))
  {
    RoundTrip(o);
    DumpDistinct(o);
    OutputOrderFree(Dump(o), w);
  }

  /** The keys `dump_output` writes are all different. */
  lemma DumpDistinct(o: Output)
    ensures DistinctKeys(Dump(o).fields)
  {
    var head := [Field("name", Str(o.name)), TypeField(o)];
    var co := OptionField("compile_options", o.compileOptions);
    var lo := OptionField("link_options", o.linkOptions);
    DistinctAppend(head, SourcesField(o));
    DistinctAppend(head + SourcesField(o), co);
    DistinctAppend(head + SourcesField(o) + co, lo);
    DistinctAppend(head + SourcesField(o) + co + lo, DepsField(o));
  }

  lemma DistinctAppend(a: seq<Field>, b: seq<Field>)
    requires DistinctKeys(a) && |b| <= 1
    requires forall f, g :: f in a && g in b ==> f.key != g.key
    ensures DistinctKeys(a + b)
  {
    forall i, j | 0 <= i < j < |a + b|
      ensures (a + b)[i].key != (a + b)[j].key
    {
      if j >= |a| {
        assert (a + b)[i] in a && (a + b)[j] in b;
      }
    }
  }

  // ------------------------------------------------------------ per-source options

  /** The source record one dumped source turns into, with its options. */
  function Intended(s: Source): Slot<ParsedSource> {
    Set(ParsedSource(Set(s.file), s.compileOptions))
  }

  /** `parse_output` drops every source's own options: a dumped source
      with options reads back without them, where the element read as
      intended keeps them. */
  lemma SourceOptionsLost()
    ensures var s := Source("a.c", Some("-O2"));
      && SourceItem(DumpSource(s)) == Ok(Set(ParsedSource(Set("a.c"), None)))
      && IntendedSourceItem(DumpSource(s)) == Intended(s)
      && Intended(s) != Set(ParsedSource(Set("a.c"), None))
  {
  }

  /** One element of a `sources` array read as the code evidently means
      to: `compile_options` looked up on the element, which `lua_pop(L, 2)`
      shows is still below the file value, rather than on the file value.
      Neither lookup can then raise. */
  function IntendedSourceItem(item: Value): (r: Slot<ParsedSource>)
    ensures !item.Table? ==> r == Unset
    ensures item.Table? ==> r.Set?
    ensures item.Table? ==> (r.value.file.Set? <==> IsString(GetField(item, "file")))
    ensures item.Table? ==>
      (r.value.compileOptions.Some? <==> IsString(GetField(item, "compile_options")))
  {
    if !item.Table? then Unset
    else
      var file := GetField(item, "file");
      var opts := GetField(item, "compile_options");
      Set(ParsedSource(if IsString(file) then Set(ToStr(file)) else Unset,
                       if IsString(opts) then Some(ToStr(opts)) else None))
  }

  /** The element loop with the intended reader. */
  function IntendedSourcesOf(t: Value, n: nat): (r: seq<Slot<ParsedSource>>)
    requires t.Table? && n <= |t.items|
    ensures |r| == n
  {
    if n == 0 then [] else IntendedSourcesOf(t, n - 1) + [IntendedSourceItem(t.items[n - 1])]
  }

  lemma DumpedSourceIntended(s: Source)
    ensures IntendedSourceItem(DumpSource(s)) == Intended(s)
  {
    assert ToStr(Str(s.file)) == s.file;
    if s.compileOptions.Some? {
      assert ToStr(Str(s.compileOptions.value)) == s.compileOptions.value;
    }
  }

  lemma {:induction false} IntendedSourcesOfItems(t: Value, xs: seq<Slot<ParsedSource>>, n: nat)
    requires t.Table? && n <= |xs| <= |t.items|
    requires forall i :: 0 <= i < |xs| ==> IntendedSourceItem(t.items[i]) == xs[i]
    ensures IntendedSourcesOf(t, n) == xs[..n]
  {
    if n > 0 {
      IntendedSourcesOfItems(t, xs, n - 1);
      assert xs[..n] == xs[..n - 1] + [xs[n - 1]];
    }
  }

  /** Read as intended, a dumped `sources` array gives back every file
      with its own options. */
  lemma IntendedSourcesRoundTrip(ss: seq<Source>, t: Value, n: nat)
    requires t.Table? && |t.items| == |ss| && forall i :: 0 <= i < |ss| ==> t.items[i] == DumpSource(ss[i])
    requires n <= |ss|
    ensures forall i :: 0 <= i < n ==> IntendedSourcesOf(t, n)[i] == Intended(ss[i])
  {
    var xs := seq(|ss|, i requires 0 <= i < |ss| => Intended(ss[i]));
    forall i | 0 <= i < |ss| ensures IntendedSourceItem(t.items[i]) == xs[i] {
      DumpedSourceIntended(ss[i]);
    }
    IntendedSourcesOfItems(t, xs, n);
  }
}
