# mingen, modelled in Dafny

mingen is a build-file generator. A Lua script (`mingen.lua` by default)
declares projects as tables; mingen checks and collects them, then writes
`build/build.ninja` and, on request, `build/compile_commands.json`. It can
also download and unpack archives into a cache directory. This project
models the parts of mingen that compute things and proves properties of
them:

- **String search** (`str.dfy`, module `Str`): `str::find`, `str::rfind`,
  both `str::starts_with` and `str::ends_with`. C strings are `string`
  values without their terminator, `UINT32_MAX` is `NPOS`, and a length
  argument of `NPOS` stands for `strlen`.
- **Script-relative paths** (`lua_paths.dfy`, module `LuaPaths`):
  `resolve_path_from_script` and `resolve_path_to_script`, as methods
  proved against functions of the script path, the working directory and
  the path.
- **Project records** (`project.dfy`, `lua_value.dfy`, `lua_input.dfy`,
  `lua_output.dfy`): the `lua::output` record, the Lua values a script
  hands over, and the validators `parse_config_input`, `parse_input`,
  `parse_output` and the serialiser `dump_output`. A table is the
  sequence of its string-keyed fields in `lua_next` order, plus its array
  part. Failures are explicit outcomes: a Lua error raised, or undefined
  behaviour.
- **Ninja generation** (`stream.dfy`, `escape.dfy`, `objects.dfy`,
  `emit.dfy`, `commands.dfy`, `generate.dfy`, `compile_db.dfy`,
  `ninja.dfy`). It covers `unesc_str`, `collect_objs`, `write_deps`,
  `get_ninja_cwd`, `write_custom_command`, `generate`, `generate_db`, and
  the worklist and `default` line of `ninja_generator`. The `FILE*` is a
  class (`Stream.OutFile`) whose text each writer appends to, and
  `fseek(file, -1, SEEK_CUR)` drops the last character. Every writer is a
  method proved to append exactly the text of a specification function.
  Lemmas then state what that text contains.
- **Downloads** (`net.dfy`, module `Net`): `bin_to_hex`, and the path and
  cache arithmetic of `net::download`. That arithmetic covers:
  - the destination directory and the directories created for it;
  - the `.dl-cache` archive and meta paths;
  - the checksum comparison that skips a second extraction;
  - the target name of each extracted entry.
- **Command line** (`cli.dfy`, module `Cli`): the argument loop of `main`,
  proved against a function from `argv` to the command it selects, and
  the exit status that follows.

Undefined behaviour, and loops that never end, are kept as outcomes
(`Wrappers.Run` is `Done`, or `Stuck` with `Hangs` or `MemoryFault`).
They are not excluded by preconditions, except where "## Left out" says
so. The quirks of the code are
modelled as written, and lemmas state them:
- objects from sibling directories collide;
- the fallback loop of `collect_objs` can run forever;
- `${out}` without `${in}` leaves a stray `}`;
- on Linux, `snprintf` cuts the last character of an artifact name;
- the archive trailer lacks one newline;
- a trailing comma can appear in the compile database;
- a second `sources` array is shifted;
- `-c=X` is split only past six characters.

The platform (`Windows` or `Linux`) is a parameter wherever the code
differs between them.

## Model

| member | source | states |
|---|---|---|
| Str.Effective | src/string.cpp:48-52 | the length a function works with (`UINT32_MAX` replaced by `strlen`) never exceeds the string |
| Str.StrnEqIsPrefixEq | src/string.cpp:57 | `strncmp(a, b, n) == 0` for a needle without NUL holds exactly when both hold the same first n characters |
| Str.StrnEqFromIsSliceEq | src/string.cpp:57 | the same from any offset k: strncmp agrees with equality of the slices k..k+n, both directions |
| Str.IndexFrom | src/string.cpp:55-62 | the search from i gives `NPOS` or an index at or after i where the needle occurs |
| Str.IndexFromSpec | src/string.cpp:55-62 | no occurrence lies between i and the index found (none at all when the result is `NPOS`) |
| Str.LastBefore | src/string.cpp:76-83 | the backward search below i gives `NPOS` or an index below i |
| Str.LastBeforeSpec | src/string.cpp:76-83 | the index found holds the needle and no occurrence lies between it and i |
| Str.LastBeforeSkips | src/string.cpp:76-83 | stepping the backward search over positions with no occurrence does not change its result |
| Str.LastBeforeFromLastStart | src/string.cpp:76 | starting the backward search at `str_len - buf_len + 1` misses no occurrence |
| Str.IndexOfSpec | src/string.cpp:46-65 | `find` is `NPOS` iff the needle never occurs; otherwise it is an occurrence with none before it |
| Str.LastIndexOfSpec | src/string.cpp:67-86 | `rfind` is `NPOS` iff the needle never occurs; otherwise it is an occurrence with none after it |
| Str.IndexOfAbsent | src/string.cpp:46-65 | a one-character `find` that fails means the character is absent |
| Str.LastIndexOfAbsent | src/string.cpp:67-86 | a one-character `rfind` of an absent character fails |
| Str.LastIndexOfPresent | src/string.cpp:67-86 | a one-character `rfind` of a present character finds it, with no copy after it |
| Str.LastIndexOfChar | src/string.cpp:67-86 | both cases of a one-character `rfind` |
| Str.LastIndexOfCharAt | src/string.cpp:67-86 | the last occurrence of a character is the one with no copy after it |
| Str.ProbeAt | src/string.cpp:57 | the loop's test (first character, then `strncmp`) holds exactly when the needle occurs at that index |
| Str.Find | src/string.cpp:46-65 | `find` returns the first occurrence within the first `str_len` characters, or `NPOS`; a hit ends within `str_len` and holds the needle |
| Str.RFindProbe | src/string.cpp:76-83 | one probe of the `rfind` loop: a hit is the last occurrence below i; a miss defers to the indices below |
| Str.RFind | src/string.cpp:67-86 | `rfind` returns the last occurrence within the first `str_len` characters, or `NPOS`; a hit ends within `str_len` and holds the needle |
| Str.StartsWith | src/string.cpp:88-92 | true exactly when buf is a prefix of str |
| Str.StartsWithN | src/string.cpp:94-99 | true exactly when the first `buf_len` characters of buf are a prefix of str |
| Str.EndsWith | src/string.cpp:101-109 | compares the last `buf_len` of the first `str_len` characters with buf; the caller must keep `buf_len <= str_len` |
| Str.EndsWithStr | src/string.cpp:101-109 | with both lengths defaulted: true exactly when buf is a suffix of str |
| Stream.OutFile.constructor | src/generator.cpp:539 | a file opened with mode "w" starts empty |
| Stream.OutFile.Write | src/generator.cpp:644-647 | `fwrite`/`fprintf` append their text at the end |
| Stream.OutFile.BackUpAndWrite | src/generator.cpp:395 | `fseek(file, -1, SEEK_CUR)` then a write: the last character is replaced by the new text |
| Project.TypeOfCode | src/lua_env.hpp:23-31 | the project type read from an integer has that integer as its code; the codes 0-4 are the named kinds |
| Project.TypeOfCodeInverse | src/lua_env.hpp:23-31 | reading back the code of a project type gives the same type |
| LuaValue.Lookup | src/lua_env.cpp:532 | a field is found iff the table has that key, and the value found is one stored under it |
| LuaValue.LookupAppend | src/lua_env.cpp:745-758 | a later field with a key overrides every earlier one |
| LuaValue.GetField | src/lua_env.cpp:532-537 | `lua_getfield` gives the stored value, or nil on a non-table |
| LuaValue.RawGetI | src/lua_env.cpp:786 | `lua_rawgeti` gives the 1-based array element, nil outside `1..len` |
| LuaValue.ToStr | src/lua_env.cpp:343-348 | `lua_tostring` gives a string itself, and an integer in decimal with its sign |
| LuaValue.Numeral | src/lua_env.cpp:770 | a string converts to an integer only when it starts with a sign or a digit, and only to a 64-bit value |
| LuaValue.ToInteger | src/lua_env.cpp:770 | `lua_tointeger` gives an integer itself, the value of a string holding a decimal numeral in the 64-bit range, and 0 for anything else |
| LuaValue.DigitsValueOfDigits | src/lua_env.cpp:770 | the decimal digits of n read back to n |
| LuaValue.ToIntegerOfToStr | src/lua_env.cpp:538 | the text `lua_tostring` makes of a 64-bit integer converts back to that integer, so `__project_type_enum_value = "2"` reads as 2 |
| LuaValue.Int32 | src/lua_env.cpp:687 | `static_cast<int32_t>` wraps modulo 2^32 into the signed range and keeps values already in range |
| LuaPaths.RelativeStart | src/lua_env.cpp:188-208 | the script is relative to the working directory exactly when it starts with `./`, `.\` or the working directory |
| LuaPaths.Copied | src/lua_env.cpp:232 | `strncpy` copies at most the whole path |
| LuaPaths.DirPartSpec | src/lua_env.cpp:210-225 | the script's directory part ends at its last `/`, or else at its last `\`, and is empty without either |
| LuaPaths.Grow | src/lua_env.cpp:218-219 | the doubling loop ends with a capacity at least the need and at least the start |
| LuaPaths.RFindSeparator | src/lua_env.cpp:210-212 | the two `rfind`s give the end of the directory part, or `NPOS` when it is empty |
| LuaPaths.FindSeparator | src/lua_env.cpp:291-293 | the two `find`s give a separator's index, or `NPOS` when the text holds none |
| LuaPaths.ResolvePathFromScript | src/lua_env.cpp:175-235 | `resolve_path_from_script` returns the path unchanged for a script outside the working directory, else the script's directory then the path (stuck where the code faults or loops) |
| LuaPaths.CountSeparators | src/lua_env.cpp:275-277 | the counting loop counts every `/` and `\` from the start position on |
| LuaPaths.Climb | src/lua_env.cpp:279-295 | the `../` loop writes one `../` per separator counted and leaves no separator after the final position; it loops forever only on a zero capacity |
| LuaPaths.SkipToSeparator | src/lua_env.cpp:291-294 | each pass of the `../` loop moves past at least one separator while some remain |
| LuaPaths.NoSeparatorLeft | src/lua_env.cpp:297-299 | after the loop the final `rfind`s find no directory part |
| LuaPaths.ResolvePathToScript | src/lua_env.cpp:237-322 | `resolve_path_to_script` returns the path unchanged for a script outside the working directory, else one `../` per separator of the script's relative path, then the path |
| LuaPaths.LevelsAgree | src/lua_env.cpp:210-225 | for a script path with one kind of separator, the directory part holds every separator, and is non-empty iff one exists |
| LuaPaths.ToScriptUndoesFromScript | src/lua_env.cpp:175-322 | for such a script the two resolvers succeed together; one prefixes the path with the directory, the other with one `../` per level of that same directory |
| LuaInput.ListOf | src/lua_env.cpp:331-518 | no string list is filled from `name`, `type` or `dependencies` |
| LuaInput.Appended | src/lua_env.cpp:340-351 | reading an array appends exactly one slot per element |
| LuaInput.ConfigStep | src/lua_env.cpp:329-519 | the key is handled iff it is a list key (static-library keys only for prebuilt); a non-table value raises `<key>: expecting array`; a handled key only appends, growing the list by the array length |
| LuaInput.ConfigWalk | src/lua_env.cpp:577-589 | the fields of a configuration table, from any position on, succeed only by appending, and only when every key is one `parse_config_input` handles |
| LuaInput.FirstItemKeyUnhandled | src/lua_env.cpp:329-519 | `parse_config_input` never handles the key "1" an array part starts with |
| LuaInput.ConfigLoop | src/lua_env.cpp:577-589 | a configuration table with an array part raises `Unknown key: <config>` at once; otherwise the loop is the walk of its fields, and success means no array part, only appends and only handled keys |
| LuaInput.TypeRead | src/lua_env.cpp:532-548 | `type` is read iff it is a table with the enum field; a missing `type` raises `missing key: type`, any other value the enum error |
| LuaInput.InputStep | src/lua_env.cpp:556-612 | a top-level field other than `name` only appends; `name` must be a string and sets the name alone |
| LuaInput.AppendStrings | src/lua_env.cpp:340-352 | the element loop appends the array's slots, reading from index `size + 1` for `sources` and from 1 for the other keys |
| LuaInput.ParseConfigInput | src/lua_env.cpp:329-519 | `parse_config_input` computes `ConfigStep` |
| LuaInput.ParseConfigTable | src/lua_env.cpp:577-589 | the inner `lua_next` loop computes `ConfigLoop`, raising `Unknown key` naming the configuration |
| LuaInput.DeclaredConfig | src/lua_env.cpp:594-603 | the search over the declared configurations finds the key iff it is one of them |
| LuaInput.ParseInputField | src/lua_env.cpp:554-613 | one pass of the top-level loop computes `InputStep`; it warns iff the key is unhandled and names no declared configuration |
| LuaInput.ReadType | src/lua_env.cpp:532-548 | the `type` lookup computes `TypeRead` |
| LuaInput.WalkOnce | src/lua_env.cpp:552-614 | one field of the walk: its warning comes before the later ones, and an error ends the walk |
| LuaInput.WalkStep | src/lua_env.cpp:552-614 | one pass of the loop keeps the walk still to do in step with the warnings already printed |
| LuaInput.InputLoop | src/lua_env.cpp:550-614 | a table with an array part never succeeds: the key "1" is warned about unless it names a configuration, then `invalid key to 'next'` is raised; without one the loop is the walk of the fields |
| LuaInput.WalkInput | src/lua_env.cpp:550-614 | the top-level `lua_next` loop computes `InputLoop`: its result, and its warnings in the order they are printed |
| LuaInput.ParseInput | src/lua_env.cpp:522-622 | `parse_input` gives `InputOf`: the `type` read, the loop (array part first), then `missing key: name` when no name was set |
| LuaInput.ConfigAppendsInOrder | src/lua_env.cpp:356-516 | every list key but `sources` appends the array's elements, in order, after what earlier occurrences stored |
| LuaInput.SourcesReadFromOldSize | src/lua_env.cpp:339-352 | `sources` keeps its m old entries; new slot k takes 1-based element k + 1, so the array's first m elements are skipped and the last m slots stay unset |
| LuaInput.SourcesSecondArrayShifted | src/lua_env.cpp:342 | a second `sources` array loses its element where `includes` keeps it |
| LuaInput.IntendedConfigStep | src/lua_env.cpp:339-352 | with `sources` read from index 1, a key is still handled iff it is a list key, and a handled key only appends |
| LuaInput.IntendedAppendsInOrder | src/lua_env.cpp:339-352 | read as intended, every list key, `sources` included, appends the array's elements in order after what earlier occurrences stored |
| LuaInput.IntendedSecondArrayKept | src/lua_env.cpp:342 | read as intended, the second `sources` array keeps its element |
| LuaInput.UnknownKeys | src/lua_env.cpp:605-611 | every key reported is unhandled and names no declared configuration |
| LuaInput.WalkAccepted | src/lua_env.cpp:552-614 | a successful walk of the fields accepted every one of them, a configuration table only without an array part, and kept the project type |
| LuaInput.WalkName | src/lua_env.cpp:556-564 | after a successful walk the name is the last `name` field's string, or the previous name |
| LuaInput.WalkWarnings | src/lua_env.cpp:592-611 | the warnings of a successful walk are the unknown keys in field order |
| LuaInput.InputGuarantees | src/lua_env.cpp:522-622 | a bad `type` fails at once; a table with an array part raises `invalid key to 'next'` after warning about "1" unless it is a declared configuration; a successful parse had no array part, has the type read and a string `name` field as its name, accepted every field, and warned exactly about the unknown keys |
| LuaOutput.SourceItem | src/lua_env.cpp:786-812 | a non-table element leaves its slot unwritten; a string or number `file` is stored as its text, without options; indexing raises only for a `file` that is neither a string, a number nor a table |
| LuaOutput.IntendedSourceItem | src/lua_env.cpp:786-812 | read from the element, a source keeps its file iff `file` is a string or number, and its options iff `compile_options` is |
| LuaOutput.SourceOptionsLost | src/lua_env.cpp:797 | a dumped source with options reads back without them, where the intended reader keeps them |
| LuaOutput.IntendedSourcesRoundTrip | src/lua_env.cpp:693-707 | read as intended, a dumped `sources` array gives back every file with its own options |
| LuaOutput.ParseOutput | src/lua_env.cpp:736-861 | `parse_output` computes `OutputOf`, recursing into dependencies; an array part is visited first and makes the next `lua_next` raise |
| LuaOutput.ParseField | src/lua_env.cpp:745-855 | one pass of the `lua_next` loop computes `FieldStep` |
| LuaOutput.ParseSources | src/lua_env.cpp:779-813 | the `sources` element loop computes `SourcesOf` |
| LuaOutput.ParseDeps | src/lua_env.cpp:840-852 | the `dependencies` element loop computes `DepsOf` |
| LuaOutput.SourcesStopped | src/lua_env.cpp:784-813 | once a `sources` element fails, the failure is the array's result |
| LuaOutput.DepsStopped | src/lua_env.cpp:846-852 | once a dependency fails, the failure is the array's result |
| LuaOutput.WalkOk | src/lua_env.cpp:745-855 | the walk of the fields succeeds exactly when every field is accepted on its own, whatever record was built before it |
| LuaOutput.OutputOk | src/lua_env.cpp:736-861 | `parse_output` succeeds exactly when the table has no array part and every field is accepted; an array part raises `invalid key to 'next'` |
| LuaOutput.StepDescribed | src/lua_env.cpp:749-853 | an accepted field sets the one part of the record its key names |
| LuaOutput.DescribedAppend | src/lua_env.cpp:745-855 | later fields override earlier ones |
| LuaOutput.WalkDescribed | src/lua_env.cpp:745-855 | a successful walk builds the record the last field of each key describes |
| LuaOutput.OutputOrderFree | src/lua_env.cpp:745-855 | with distinct keys and the same array part, the success and the record do not depend on the order `lua_next` visits the fields |
| LuaOutput.Restored | src/lua_env.cpp:736-861 | the record read back from a dump has one source and one dependency per original |
| LuaOutput.SourcesRoundTrip | src/lua_env.cpp:693-707 | a dumped `sources` array reads back to each file with its options dropped |
| LuaOutput.DepsRoundTrip | src/lua_env.cpp:722-731 | a dumped `dependencies` array reads back to each dependency's restored record |
| LuaOutput.DumpSource | src/lua_env.cpp:697-706 | a dumped source is a table with no array part whose `file` is the file name and whose `compile_options` is the options or nil |
| LuaOutput.Dump | src/lua_env.cpp:679-732 | the dump is a table with no array part, holding `name` and `type` and one field for each non-empty list and each set option |
| LuaOutput.DumpPasses | src/lua_env.cpp:679-732 | every field `dump_output` writes is accepted by `parse_output` |
| LuaOutput.DumpDistinct | src/lua_env.cpp:681-731 | the keys `dump_output` writes are distinct |
| LuaOutput.RoundTrip | src/lua_env.cpp:679-861 | `parse_output(dump_output(o))` restores the name, type, sources, options and dependencies; per-source options are lost (see Findings) |
| LuaOutput.RoundTripAnyOrder | src/lua_env.cpp:679-861 | the round trip holds whatever order Lua hands the fields back in |
| Escape.FromLetter | src/generator.cpp:31-76 | each escape letter stands for exactly one special character |
| Escape.LetterInverse | src/generator.cpp:31-76 | the escape table is invertible |
| Escape.EscapeChar | src/generator.cpp:31-81 | a special character becomes a backslash and its letter; every other character is copied |
| Escape.UnescResult | src/generator.cpp:24-85 | the buffer overflows exactly when every character is special (the empty text included); otherwise the result is the escaped text |
| Escape.UnescStr | src/generator.cpp:24-85 | `unesc_str` computes `UnescResult` |
| Escape.EscapedAppend | src/generator.cpp:29-82 | escaping distributes over concatenation |
| Escape.EscapedLength | src/generator.cpp:29-82 | output length is input length plus the number of special characters |
| Escape.EscapedPlain | src/generator.cpp:77-80 | text without special characters is copied unchanged |
| Escape.UnescapedEscaped | src/generator.cpp:31-81 | reading escaped text back gives the original |
| Objects.Object | src/generator.cpp:166-179 | the object name ends in `.o` after the text between the stripped prefix and the last `.`, or after all the text from the prefix when there is no `.`; it faults iff the prefix reaches past that point |
| Objects.ObjectList | src/generator.cpp:164-180 | one object per source, in order, or a fault from some source |
| Objects.ObjectListFaults | src/generator.cpp:169-177 | one faulting source makes the whole list fault |
| Objects.FindPathStart | src/generator.cpp:126-162 | the first loop and the increment compute `PathStart` |
| Objects.ObjectNames | src/generator.cpp:164-180 | the second loop computes `ObjectList` |
| Objects.CollectObjs | src/generator.cpp:123-183 | `collect_objs` is the two loops in turn |
| Objects.ScanKeepsOrZeroes | src/generator.cpp:127-159 | after the first source, the loop keeps `path_start` or drops it to 0 |
| Objects.PathStartShape | src/generator.cpp:126-162 | the stripped prefix is empty or ends just after the first source's last `/` |
| Objects.ScanNoSlash | src/generator.cpp:129-134 | a source without `/` forces `path_start` to 0 |
| Objects.NoSlashForcesZero | src/generator.cpp:127-162 | if any source lacks `/`, no prefix is stripped |
| Objects.SiblingPathStart | src/generator.cpp:127-162 | `src/foo/x.cpp` and `src/bar/x.cpp` strip eight characters |
| Objects.SiblingObjects | src/generator.cpp:164-180 | both then become `x.o` |
| Objects.SiblingDirectoriesCollide | src/generator.cpp:123-183 | object names are not unique: sibling directories collide |
| Objects.DifferentTopDirectoriesHang | src/generator.cpp:144-150 | sources under different top directories make the fallback loop run forever |
| CompileDb.EntryRuns | src/generator.cpp:96-115 | one entry per source of a project, in order |
| CompileDb.ProjectRuns | src/generator.cpp:94-116 | the entries of each project, project by project |
| CompileDb.WriteEntry | src/generator.cpp:98-114 | writes one entry: directory, command, file, then `},` or `}` |
| CompileDb.UnescOptions | src/generator.cpp:104-107 | the escaped options are the source's own, else the project's |
| CompileDb.WriteProjectEntries | src/generator.cpp:96-115 | the inner loop writes the project's entries |
| CompileDb.WriteEntries | src/generator.cpp:94-116 | the outer loop writes every project's entries |
| CompileDb.GenerateDb | src/generator.cpp:87-121 | `generate_db` writes the database text, or faults where escaping the working directory overflows |
| CompileDb.DbLayout | src/generator.cpp:93-117 | the file is `[`, a newline, the entries, then `]` |
| CompileDb.EntryRunText | src/generator.cpp:98-114 | a written entry is the entry text for its chosen options |
| CompileDb.EntryInDb | src/generator.cpp:87-121 | each source of each project has its entry in the file, with its chosen options |
| CompileDb.DbBrackets | src/generator.cpp:93-117 | the file starts with `[` and a newline and ends with `]` |
| CompileDb.LastEntryOf | src/generator.cpp:111-114 | the last entry of a project that is not the last closes with `},` |
| CompileDb.BodyEndsWithComma | src/generator.cpp:111-114 | when every later project has no sources, the entries end with that comma |
| CompileDb.TrailingComma | src/generator.cpp:111-117 | if the last project has no sources, the file ends `},` then `]`, a trailing comma JSON forbids |
| Emit.NinjaCwd | src/generator.cpp:221-234 | on Windows a `$` follows the drive letter and the rest is kept; on Linux the path is unchanged |
| Emit.WriteSpaced | src/generator.cpp:195-196 | writes each item followed by a space |
| Emit.WriteDepArtifacts | src/generator.cpp:189-215 | writes a dependency's own artifacts: objects for sources, `lib/<name>.a` for libraries, nothing otherwise |
| Emit.WriteDep | src/generator.cpp:187-218 | one dependency: its artifacts, then its own dependencies |
| Emit.WriteDeps | src/generator.cpp:185-219 | `write_deps` writes `DepsText` |
| Emit.ArtifactRuns | src/generator.cpp:189-215 | the artifacts each listed project contributes on its own |
| Emit.DepsTextPreOrder | src/generator.cpp:185-219 | the text is the artifacts of every descendant in depth-first pre-order, without deduplication |
| Emit.DepsPrefixPreOrder | src/generator.cpp:187-218 | the first n passes list the subtrees of the first n dependencies |
| Commands.TokensApart | src/generator.cpp:259-260 | the first `${in}` and `${out}` never overlap |
| Commands.TokensDisjoint | src/generator.cpp:259-260 | any occurrences of the two placeholders are disjoint |
| Commands.FirstTokenAt | src/generator.cpp:259-260 | a placeholder with no `$` before it is the one `find` returns |
| Commands.WriteListed | src/generator.cpp:248-252 | writes each file behind the given lead (` ../` for the step's files) |
| Commands.WriteJoined | src/generator.cpp:279-289 | writes the files separated by single spaces |
| Commands.WriteSubstituted | src/generator.cpp:263-322 | writes the command with its placeholders replaced |
| Commands.WriteCmdBody | src/generator.cpp:259-325 | writes `CmdBody`, or faults as the code does |
| Commands.WriteStepHead | src/generator.cpp:247-252 | writes the outputs, `: cmd` and the inputs |
| Commands.WriteStepTail | src/generator.cpp:259-325 | writes the rest of a step after its order-only part |
| Commands.WriteStep | src/generator.cpp:245-337 | one step: a `cmd` statement or a `copy` statement |
| Commands.WriteSteps | src/generator.cpp:243-338 | the loop writes every step in order, stopping at the first fault |
| Commands.WriteCustomCommand | src/generator.cpp:236-342 | `write_custom_command` writes `ChainText`: the steps, then one newline when there are any |
| Commands.CmdBodyVerbatim | src/generator.cpp:324-325 | a command with neither placeholder is emitted verbatim |
| Commands.CmdBodyInFirst | src/generator.cpp:265-304 | with `${in}` before `${out}`, each first placeholder becomes its space-joined list and all other text is kept |
| Commands.CmdBodyInOnly | src/generator.cpp:265-321 | `${in}` alone is replaced by the inputs and the rest kept |
| Commands.CmdBodyOutFirst | src/generator.cpp:271-316 | with `${out}` first, an extra space is written before the text between the placeholders |
| Commands.CmdBodyOutOnly | src/generator.cpp:271-321 | with `${out}` alone the text resumes five characters in, leaving a stray `}` after the outputs |
| Commands.StepOrdering | src/generator.cpp:247-255 | a step starts `build ../<first output>`, and step i > 0 is ordered after step i-1's first output |
| Commands.ChainInsertion | src/generator.cpp:256-257 | a chain inserts ` \|\| <chain>` right after the order-only part and changes nothing else, faults included |
| Commands.CopyUsesFirstFilesOnly | src/generator.cpp:327-337 | a copy step reads only its first input and first output |
| Generate.Snprintf | src/generator.cpp:379 | `snprintf` with size n keeps at most n - 1 characters |
| Generate.ArtifactPath | src/generator.cpp:370-443 | artifact names: `.exe` and `.dll` on Windows; on Linux the executable loses its last character and a shared library is `.s`; a static library is `lib/<name>.a` |
| Generate.EdgeRuns | src/generator.cpp:351-365 | one compile edge per object |
| Generate.DepNames | src/generator.cpp:390-391 | the direct dependencies' names, in order |
| Generate.WriteEdge | src/generator.cpp:353-364 | writes the compile edge of one source |
| Generate.WriteCompileEdges | src/generator.cpp:351-365 | the source loop writes every compile edge |
| Generate.WriteLinkHead | src/generator.cpp:382-384 | writes `build <artifact>: link` or `lib` and the objects |
| Generate.WriteClosing | src/generator.cpp:387-400 | writes the dependency names, or backs up over the last space, then the trailer |
| Generate.WriteLink | src/generator.cpp:382-400 | writes the link or archive statement |
| Generate.CopyInto | src/generator.cpp:475-482 | `strncpy` into the buffer keeps what precedes and adds the text |
| Generate.PutPath | src/generator.cpp:475-492 | one `obj/<name>/<object>` and its separator are copied into the buffer |
| Generate.BufferStep | src/generator.cpp:483-492 | after item i the buffer holds the items so far, space-separated, then a terminator after the last |
| Generate.JoinObjectPaths | src/generator.cpp:466-493 | `build_out` for a source collection is the object paths joined by spaces, or garbage when there are none |
| Generate.WriteSwitch | src/generator.cpp:367-500 | the `switch` writes `SwitchText` and yields `build_out` |
| Generate.ChainReadsLastOutput | src/generator.cpp:509-510 | a finished chain's last step has a first output |
| Generate.WritePost | src/generator.cpp:502-518 | writes the post-build chain and the phony target |
| Generate.WriteBody | src/generator.cpp:351-518 | writes everything after the pre-build chain |
| Generate.GenerateProject | src/generator.cpp:344-524 | `generate` writes `ProjectText` |
| Generate.CompileEdgeAt | src/generator.cpp:351-365 | each compile edge is `obj/<name>/<obj>: cxx <cwd>/<file>`, ordered after the last pre-build output when there are pre-build steps, with the source's options or else the project's |
| Generate.BodyLayout | src/generator.cpp:351-518 | the body is the compile edges, the `switch` output, then the post-build part |
| Generate.ProjectLayout | src/generator.cpp:344-524 | a project's text is the pre-build chain, the compile edges, the `switch` output and the post-build part |
| Generate.CompileEdgeInProject | src/generator.cpp:351-365 | each compile edge appears in the project's text |
| Generate.PostEndsWithPhony | src/generator.cpp:505-518 | the phony target is the last post-build step's first output, else `build_out` |
| Generate.ProjectEndsWithPost | src/generator.cpp:502-518 | a project's text ends with its post-build part |
| Generate.PhonyTargetOfLinked | src/generator.cpp:505-518 | a linked project's phony target is the last post-build output, else the artifact |
| Generate.PhonyTargetOfSources | src/generator.cpp:464-518 | a source collection's phony target is the last post-build output, else its joined object paths |
| Generate.NoPhonyTarget | src/generator.cpp:495-518 | any other kind has no phony target |
| Generate.EmptySourceCollectionFaults | src/generator.cpp:466-514 | a source collection without sources faults: its empty buffer is read as a string |
| Generate.NoDependencyText | src/generator.cpp:187-218 | without dependencies `write_deps` writes nothing |
| Generate.LinkWithoutDependencies | src/generator.cpp:393-396 | without dependencies the last object's trailing space is dropped |
| Ninja.BuildWorklist | src/generator.cpp:591-636 | every pass reads root index 1; the worklist is `Worklist`, and each pass stores the root's position |
| Ninja.HasName | src/generator.cpp:604-612 | the search finds the name iff a worklist entry has it |
| Ninja.AddDependencies | src/generator.cpp:602-624 | the dependency loop computes `AddDeps` |
| Ninja.AddDepsExtends | src/generator.cpp:602-624 | the worklist keeps its prefix and only gains direct dependencies |
| Ninja.AddDepsCovers | src/generator.cpp:602-624 | afterwards every direct dependency's name is in the worklist |
| Ninja.AddDepsKnown | src/generator.cpp:602-624 | dependencies whose names are known add nothing |
| Ninja.AddDepsDistinct | src/generator.cpp:602-624 | adding dependencies keeps names distinct |
| Ninja.DedupProperties | src/generator.cpp:597-624 | the first pass adds distinct names, covering every direct dependency, taken from them |
| Ninja.WorklistShape | src/generator.cpp:597-636 | the worklist is the deduplicated direct dependencies, then one copy of the root per pass |
| Ninja.RootPositions | src/generator.cpp:631-633 | the position stored by pass i holds the root |
| Ninja.DefaultLine | src/generator.cpp:644-647 | `default`, then a space and the root's name per pass, then a newline: 8 + n(len + 1) characters |
| Ninja.DefaultLineNames | src/generator.cpp:644-646 | the i-th name sits at a fixed stride |
| Ninja.ProjectBlocks | src/generator.cpp:641-642 | one block per worklist project |
| Ninja.WriteHeader | src/generator.cpp:545-589 | writes the rules for the platform |
| Ninja.GenerateAll | src/generator.cpp:641-642 | `generate` for every worklist project in order |
| Ninja.WriteDefault | src/generator.cpp:644-647 | writes the `default` line through the stored positions |
| Ninja.GenerateBody | src/generator.cpp:591-647 | writes the build body and, when asked, the compile database |
| Ninja.NinjaGenerator | src/generator.cpp:527-654 | an empty root list fails and writes nothing; otherwise both files are written iff their texts are defined |
| Ninja.HeaderThenBody | src/generator.cpp:544-647 | the header comes first, and the file is complete iff its body is |
| Ninja.BuildLayout | src/generator.cpp:544-647 | the file is the header, the worklist's blocks and the default line |
| Ninja.ProjectInBuild | src/generator.cpp:641-642 | every worklist project's statements are in the file |
| Ninja.BuildEndsWithDefault | src/generator.cpp:644-647 | the file ends with the `default` line |
| Net.HexDigit | src/net.cpp:237-242 | a nibble becomes `0`-`9` or upper-case `A`-`F` |
| Net.PairBack | src/net.cpp:237-238 | a byte's two digits decode back to the byte |
| Net.Hex | src/net.cpp:234-245 | exactly two hexadecimal digits per byte |
| Net.HexAt | src/net.cpp:237-238 | character 2i encodes `data[i] >> 4`, character 2i+1 encodes `data[i] & 15` |
| Net.UnhexHex | src/net.cpp:232-246 | decoding the checksum text gives the bytes back |
| Net.HexInjective | src/net.cpp:232-246 | different hashes give different checksum texts |
| Net.BinToHex | src/net.cpp:232-246 | `bin_to_hex` fills exactly `Hex(data)`, with no terminator |
| Net.TrailingSlash | src/net.cpp:257 | `ends_with(lua_dest, "/")`; reads before the string when it is empty |
| Net.IsAbsolute | src/fs.cpp:178-181 | `is_absolute`: Windows needs `:` as second character (empty path reads past); Linux a leading `/` (src/fs.cpp:363-366) |
| Net.DestOf | src/net.cpp:260-270 | an absolute destination is kept, a relative one resolved from the script |
| Net.PrefixesMembers | src/net.cpp:277-285 | the prefixes walked are exactly those ending before a `/` |
| Net.PrefixesAscending | src/net.cpp:277-285 | they come shortest first, each shorter than dest |
| Net.PrefixesSpec | src/net.cpp:277-285 | both from the start of dest |
| Net.MissingSpec | src/net.cpp:281-282 | only missing directories are created, in order |
| Net.CreatedSpec | src/net.cpp:272-288 | nothing is created iff dest exists; otherwise the missing prefixes, shortest first, then dest last |
| Net.PrefixesFrom | src/net.cpp:277-284 | one pass finds the next `/` and walks that prefix |
| Net.MakeStep | src/net.cpp:277-285 | one pass keeps created and still-to-create in step |
| Net.FindSlash | src/net.cpp:277 | `str::find(s, "/")` |
| Net.MakeDirectories | src/net.cpp:272-288 | the loop creates exactly `Created(dest, existing)` |
| Net.ArchiveName | src/net.cpp:290-301 | the archive name is the URL after its last `/`, or the whole URL |
| Net.CachePaths | src/net.cpp:290-312 | archive and meta paths: dest, a `/` unless trailing, `.dl-cache/`, then the archive name or `meta` |
| Net.ArchiveIsMeta | src/net.cpp:297-312 | the two paths collide iff the archive is named `meta` |
| Net.CacheHit | src/net.cpp:315-326 | no meta file never hits; a hit needs the checksum's length to equal the bytes read, so at most 1024 |
| Net.MetaAfter | src/net.cpp:315-334 | a hit leaves the meta file; otherwise it is rewritten with the checksum |
| Net.CacheHitIff | src/net.cpp:315-326 | under 1024 characters a hit means the meta file is the checksum; at 1024 it need only start with it; longer never hits |
| Net.SecondDownloadHits | src/net.cpp:315-334 | a second download of the same archive hits the cache |
| Net.StripLength | src/net.cpp:389-401 | a prefix is stripped only when the first entry is a directory whose name occurs in the second's, and then it is that name's length; a fault needs a directory first entry longer than the second's name plus one |
| Net.Targets | src/net.cpp:417-434 | each entry goes to dest, a separator, then its name past the stripped prefix; a shorter name faults |
| Net.ExtractTargets | src/net.cpp:386-434 | the extraction loop computes `Extraction` |
| Net.MainDirectoryDropped | src/net.cpp:421-434 | with a main directory its prefix is removed from each name; without one names are kept |
| Net.PlanOf | src/net.cpp:252-312 | the plan's trailing flag, destination, archive and meta paths, and creation of the cache directory iff missing |
| Net.Prepare | src/net.cpp:252-312 | the start of `download` computes `PlanOf` |
| Cli.Inline | src/main.cpp:58-59 | a value after `=` exists iff the argument is long enough and holds `=` there; it is the text after it |
| Cli.Classify | src/main.cpp:56-170 | `cp` is recognised only as the whole argument; a `-c` value is split at `=` only past six characters |
| Cli.ParseArgs | src/main.cpp:51-178 | the argument loop computes `Parse` |
| Cli.ParseAppend | src/main.cpp:54-171 | a fully read run of arguments carries its settings to what follows |
| Cli.LaterValueWins | src/main.cpp:56-145 | a later setting overrides an earlier one, inline or from the next argument |
| Cli.ValueFlagLast | src/main.cpp:62-67 | a value flag given last stops with the help and status 1 |
| Cli.HelpStops | src/main.cpp:166-170 | `-h`/`--help` gives status 0 whatever follows |
| Cli.CopyStops | src/main.cpp:150-165 | `cp` copies its next two arguments and reads nothing after them |
| Cli.IgnoredKeepsDefaults | src/main.cpp:54-171 | unrecognised arguments change nothing |
| Cli.ShortConfigNotSplit | src/main.cpp:118-128 | `-c=Debug` is split; `-c=Rel` is not and takes the next argument |
| Cli.DirectorySpellings | src/main.cpp:56-85 | `-d`, `-dx`, `-d=out` and `--directory=out` set the directory |
| Cli.FileSpellings | src/main.cpp:86-115 | `-f=` and `--file=` set the script |
| Cli.ConfigurationSpellings | src/main.cpp:131-145 | `--configuration=` sets the configuration |
| Cli.OtherSpellings | src/main.cpp:146-170 | `--compile-db`, `-h` and `--help` |
| Cli.Status | src/main.cpp:173-193 | help returns its status; a run returns the script's result, or 1 when it is missing; a copy returns 0 iff it succeeded |
| Cli.DirectoryChange | src/main.cpp:180-181 | the directory changes only after a generation run that names one |

## Findings

| source | as written | input that shows it | evidently intended | confidence | as-written member | corrected member |
|---|---|---|---|---|---|---|
| src/lua_env.cpp:797 | `compile_options` is looked up on the value on top of the stack, which is the `file` string just fetched, so it is always nil | a dumped source `{ file = "a.c", compile_options = "-O2" }` | look it up on the element, which `lua_pop(L, 2)` at line 810 shows is still below the file | not executed | LuaOutput.SourceOptionsLost | LuaOutput.IntendedSourcesRoundTrip |
| src/lua_env.cpp:342 | the loop counter starts at the old `sources_size` and element `i + 1` is read, so a later `sources` array is read from index `sources_size + 1` on | a top-level `sources = { "a.c" }` followed by a configuration's `sources = { "b.c" }` | read element `i - sources_size + 1`, as `includes` does at line 367 | not executed | LuaInput.SourcesSecondArrayShifted | LuaInput.IntendedAppendsInOrder |

## Left out

- Lua itself: the VM plumbing (`create`, `destroy`, `run_file`,
  `lua_alloc`), the functions registered for scripts, metatables and
  metamethods, floating-point numbers, and the border of `lua_rawlen` on
  arrays with holes. A table is its string-keyed fields and a dense array
  part, and `lua_next` visits the array part first, as Lua's table
  traversal does. Only the first element is then read: the loops turn
  its key into the string "1" with `lua_tostring`, and the next
  `lua_next` raises `invalid key to 'next'`.
- The position prefix `luaL_error` adds to its messages, and the text of
  the unknown-key warning. The model keeps the bare message and the key.
- The `lua_next` order is unspecified. The model takes it as the order of
  the field sequence. `LuaOutput.OutputOrderFree` shows that
  `parse_output` does not depend on it. The warnings and list contents of
  `parse_input` do, and are stated for the given order.
- LuaValue.ToInteger: only decimal numerals with an optional sign are
  converted. Surrounding spaces, hexadecimal and float numerals (`"2.0"`)
  and decimals outside the 64-bit range, which Lua converts through a
  float, give 0 in the model.
- The corrected readers of the Findings section stand beside the code
  as written. `parse_output` and `parse_config_input` are modelled as
  written, and the rest of the model uses them.
- LuaOutput.RoundTrip: arrays are assumed null exactly when empty. A
  record with a non-null, zero-size `sources` or `dependencies` array is
  not modelled. Its dump would reach the `continue` that leaves the Lua
  stack corrupted; `FieldStep` gives `Undefined` there.
- Memory management: allocation failures, frees, leaks and dangling
  pointers. `ninja_generator` keeps pointers into an array it reallocates.
  The model stores positions instead, so the `default` line reads the
  root as intended.
- Net.BinToHex requires `2 * size < 2^32`, the range in which the
  32-bit buffer size does not wrap.
- Net.ExtractTargets requires at least two entries. The code reads the
  second entry unconditionally.
- The 128-byte `strcpy_s` buffer for the main directory name is not
  modelled. It is Windows-only, and a longer name aborts there.
- Net.MakeDirectories compares paths as strings. Two spellings of the
  same directory count as different.
- The network transfer, the hash, the directory listing and deletion
  loops, and the unzipping of each entry are foreign calls. Their answers
  are parameters: existing directories, the meta file's content, the
  hash bytes and the archive entries. A failed `fopen` of the meta file
  for rewriting is not modelled.
- Ninja.NinjaGenerator takes both output files as already open. A failed
  `fopen` of `build/build.ninja`, which raises `failed to open file for
  write`, is not modelled. Neither is the unchecked `fopen` of
  `build/compile_commands.json` in `generate_db`, whose null result is
  then written to.
- Ninja.NinjaGenerator takes the roots as records `parse_output` has
  already read. The code reads root 1 again on every pass of its loop,
  after the rules are written. A script whose root makes `parse_output`
  raise would then leave the rules in the file; the model does not
  capture that partial write.
- `parse_output` never fills `pre_build_cmds` or `post_build_cmds`: the
  record starts zeroed and no key sets them. So the command chains of
  `generate` (`Commands`, and the chain paths of `Generate`) are stated
  for records a script cannot produce through `parse_output`. They are
  modelled because the code for them exists and runs on any record.
- The help text, `fs::set_cwd`, `fs::file_exists`, running the script
  and `fs::copy_file` are effects. `Cli.Status` and `Cli.DirectoryChange`
  take their results as parameters.
- Emit.NinjaCwd requires a non-empty working directory on Windows. The
  operating system never returns an empty one.
- The Win32 wide-character converters of src/string.cpp, src/fs.cpp,
  src/os.cpp, src/project.cpp and the headers under deps/win32 are not
  part of this model.
