# essh configuration layer, modelled in Dafny

This project models the configuration layer of essh (`essh/lualib.go`): the
Go code that Lua configuration scripts call to define hosts and tasks, to
load modules and to reach the live task context.

- **Lua values** (`lua.dfy`, module `Lua`). A table is the sequence of its
  entries in the order `ForEach` visits them. `RawGet` finds the first entry
  with the key. `MaxN` is the length of the run 1, 2, …, n of present
  integer keys. Numbers are kept opaque: only whether they are integers and
  how they print matter here. A number prints in full as `String()`; as a
  Go float64 (`fmt.Sprint`) an integer of magnitude 10^6 or more prints in
  exponent form.
- **Conversion** (`convert.dfy`, module `Convert`). `toGoValue` turns a
  table without an array part into a map keyed by the printed keys. When two
  keys print alike, the one visited last wins. A table with an array part
  becomes the slice of indices 1..MaxN. The typed accessors `toBool`,
  `toString`, `toMap`, `toSlice`, `toLFunction` and `toLTable` are built on
  it.
- **Host builder** (`host.dfy`, module `HostBuilder`). `registerHost` keeps
  only the config keys whose first rune is upper case. It then registers the
  five hooks in order; `after_connect` accepts only a command string. Last
  come description, hidden and tags, and every tag must be a string.
  `BuildHost` is the step-by-step construction with its loops. It is proved
  equal to the specification function `HostOf`.
- **Task builder** (`task.dfy`, module `TaskBuilder`). `registerTask` rejects
  a non-empty `file` together with a non-empty `script`. It rejects targets
  from both `on` and `foreach`. It resolves `prefix` and checks `prepare`.
  `BuildTask` is proved equal to `TaskOf`. `RunPrepare` gives the result of
  running the prepare callback.
- **Task context** (`context.dfy`, module `Context`). `taskContextPayload`
  reads or writes the one payload string of a `TaskContext` object.
- **Registry** (`registry.dfy`, module `Essh`). The class `Globals` holds the
  host and task collections and the module table. `Require` loads a module
  only when its name is missing, then memoizes it. `Reset` clears hosts and
  tasks but keeps the modules.

The Lua interpreter is not modelled. A protected call is a `CallOutcome`
(the error raised or the value returned). Fetching a module and running its
index script is a `LoadOutcome` passed in as a parameter.

## Model

| member | source | states |
|---|---|---|
| Lua.CheckString | essh/lualib.go:321 | a string argument is accepted as it is, a number in its printed form, anything else is rejected |
| Lua.Message | essh/lualib.go:328-336 | a failed module load or a failed index script raises the Go error's own text; a missing index raises "Could not load essh module: " followed by that text |
| Lua.FixedMessagesDiffer | essh/lualib.go:166-313 | the tags, file/script, on/foreach and prepare-type checks raise the literal texts of lines 166, 241, 267 and 313; across the model's six check errors (those four, hook type and string argument), two errors have the same text exactly when they come from the same check |
| Lua.IndexOf | essh/lualib.go:121 | raw lookup finds the first entry holding the key, or reports that no entry holds it |
| Lua.GetFindsFirst | essh/lualib.go:121 | `RawGet`/`RawGetString` give the value of the first entry stored under the key, and nil when no entry holds it |
| Lua.Border | essh/lualib.go:364 | from a present run 1..n, the run extends to an m with 1..m present and m+1 absent |
| Lua.MaxN | essh/lualib.go:364 | keys 1..MaxN are all present and key MaxN+1 is absent |
| Lua.MaxNIsLargest | essh/lualib.go:364 | MaxN is the only n with 1..n present and n+1 absent, no longer run of indices exists, and MaxN never exceeds the number of entries |
| Lua.IndicesBound | essh/lualib.go:364 | a table holding keys 1..n has at least n entries |
| Lua.ArrayPart | essh/lualib.go:374-376 | the values read with `RawGetInt(1..MaxN)`, in index order |
| Convert.ToGoValue | essh/lualib.go:353-382 | nil, booleans, strings and numbers map to their Go counterparts keeping their content; a table becomes a map exactly when it has no array part and a slice otherwise; functions and other values are passed through as they are |
| Convert.MapKeyTextAgrees | essh/lualib.go:368 | the map branch prints a key as `k.String()` does, for every key except integers of magnitude 10^6 or more |
| Convert.LargeIntegerKeysUseExponent | essh/lualib.go:368 | the key 1000000 prints as "1000000" but is the map key "1e+06", and 1500000 is the map key "1.5e+06" |
| Convert.LastPrinting | essh/lualib.go:367-370 | the entry whose write to `ret[keystr]` survives the `ForEach` is the last entry whose key prints as that string |
| Convert.MapOf | essh/lualib.go:366-371 | the map's keys are exactly the printed keys, and each holds the converted value of the last entry printing as it |
| Convert.SliceOf | essh/lualib.go:372-377 | the slice has MaxN items, item i being the conversion of the value at index i+1 |
| Convert.LastPrintingFindsLast | essh/lualib.go:367-370 | an entry that no later entry shadows is the one whose value the map keeps |
| Convert.MapOfDistinctTexts | essh/lualib.go:366-371 | when no two keys print alike, the map holds under each printed key the conversion of the value stored under that key |
| Convert.ThreeIndices | essh/lualib.go:364-376 | a table with keys 1, 2, 3 has MaxN 3 and the array part of its three values in index order |
| Convert.GapIndices | essh/lualib.go:364-376 | a table with keys 1 and 3 has MaxN 1: the gap at 2 ends the array part |
| Convert.StringArrayGivesStrings | essh/lualib.go:372-377 | a table whose array part holds strings converts to the slice of exactly those strings, in index order |
| Convert.ContiguousKeysGiveSlice | essh/lualib.go:363-378 | string values under keys 1, 2, 3 convert to the three-item slice of those strings in index order |
| Convert.GapEndsArrayPart | essh/lualib.go:363-378 | string values under keys 1 and 3 convert to a one-item slice: the gap at 2 ends the array part and key 3 is dropped |
| Convert.NoIndexOneGivesMap | essh/lualib.go:363-371 | with the modelled `MaxN`, string values under keys 2 and 3, without key 1, convert to a map keyed "2" and "3" |
| Convert.ToBool | essh/lualib.go:384-390 | succeeds exactly on a boolean, giving it |
| Convert.ToString | essh/lualib.go:392-398 | succeeds exactly on a Lua string, giving it; numbers are not coerced |
| Convert.ToMap | essh/lualib.go:400-406 | succeeds exactly on a table without an array part, giving the converted map, whose keys are the table's printed keys |
| Convert.ToSlice | essh/lualib.go:408-414 | succeeds exactly on a table with an array part, giving MaxN items that are the converted values at indices 1..MaxN |
| Convert.ToLFunction | essh/lualib.go:416-422 | succeeds exactly on a function, giving it |
| Convert.ToLTable | essh/lualib.go:424-430 | succeeds exactly on a table, giving its entries unconverted |
| Convert.TableHasOneShape | essh/lualib.go:400-414 | a value is a table exactly when `toMap` or `toSlice` succeeds, and never both succeed |
| Convert.StringsConvertToStrings | essh/lualib.go:359-360 | conversion gives a Go string exactly for a Lua string, keeping its text |
| HostBuilder.ExportedConfig | essh/lualib.go:101-112 | the new config holds exactly the entries whose key's first rune is upper case |
| HostBuilder.FilterConfig | essh/lualib.go:101-112 | the copying loop over the config gives exactly `ExportedConfig` |
| HostBuilder.UpperCaseKeysAreExported | essh/lualib.go:102-111 | "User" is kept; "user", the empty key and boolean keys are dropped |
| HostBuilder.RegisterHook | essh/lualib.go:174-192 | nil leaves the hooks alone, a function becomes a callback and a string a command at that point only, and any other value is an invalid hook type |
| HostBuilder.RegisterRemoteHook | essh/lualib.go:194-204 | as registerHook, but only a string is accepted, so the point can only hold a command |
| HostBuilder.HooksOf | essh/lualib.go:121-148 | registering the hooks of a hooks table succeeds exactly when every point's value is accepted at that point |
| HostBuilder.PointValues | essh/lualib.go:121-148 | the values read at the five hook points, in registration order |
| HostBuilder.HookPointsDistinct | essh/lualib.go:123-146 | the five hook points are five different names, so no registration overwrites another |
| HostBuilder.RegisterStep | essh/lualib.go:121-148 | one successful registration extends the hooks of the first n points to exactly those of the first n+1 |
| HostBuilder.ChainRegisters | essh/lualib.go:121-148 | the five successful registrations together hold exactly the hooks of the five points |
| HostBuilder.HooksSucceed | essh/lualib.go:121-148 | hook registration succeeds exactly when every point's value is nil, a string, or a function at a point other than `after_connect` |
| HostBuilder.HooksContents | essh/lualib.go:121-148 | after registration the hooks are exactly the points with a non-nil value, each holding the hook that value makes |
| HostBuilder.HooksFirstError | essh/lualib.go:121-148 | a failed registration reports the value of the first point, in registration order, that rejects it |
| HostBuilder.RemoteHookIsCommand | essh/lualib.go:133-136 | `after_connect` never holds a callback, and a function there fails the host |
| HostBuilder.RegisterHooks | essh/lualib.go:121-148 | the five registrations with their early exits give exactly `HooksOf` of the hooks table |
| HostBuilder.RunCallback | essh/lualib.go:177-184 | running a callback hook reports an error exactly when the protected call raised one; the return value is ignored |
| HostBuilder.TagsOf | essh/lualib.go:160-171 | tags fail exactly when some value is not a string; otherwise they are the values in visiting order |
| HostBuilder.CollectTags | essh/lualib.go:160-170 | the `ForEach` over the tags table gives exactly `TagsOf`, stopping at the first non-string |
| HostBuilder.StringTagsAreKept | essh/lualib.go:160-171 | the tags table {"a", "b"} gives the tags ["a", "b"] |
| HostBuilder.HostOf | essh/lualib.go:100-172 | a built host has the given name, the exported config, hidden exactly when `hidden` is true, and the string description or "" |
| HostBuilder.HostOutcome | essh/lualib.go:120-171 | a host is built exactly when its hooks register and its tags are all strings; a bad hook is reported before bad tags; without a `hooks` or `tags` table there are no hooks or tags |
| HostBuilder.BuildHost | essh/lualib.go:100-171 | the construction with its config-filter and tags loops gives exactly `HostOf` |
| TaskBuilder.NewTask | essh/lualib.go:207 | a fresh task has no targets, no prefix and no prepare callback |
| TaskBuilder.GoStringsAppend | essh/lualib.go:247-251 | keeping the strings of two slices one after the other gives the strings of each, in order, none dropped, repeated or moved |
| TaskBuilder.GoStringsOfOne | essh/lualib.go:249-251 | a single item gives its string, or nothing when it is not a string |
| TaskBuilder.GoStringsOfStrings | essh/lualib.go:247-251 | a slice of strings is kept whole, item by item in order |
| TaskBuilder.LuaStringsAppend | essh/lualib.go:247-251 | the same append law for the Lua strings of a sequence of values |
| TaskBuilder.LuaStringsOfOne | essh/lualib.go:249-251 | a single value gives its string, or nothing when it is not a string |
| TaskBuilder.LuaStringsOfStrings | essh/lualib.go:247-251 | a sequence of Lua strings is kept whole, item by item in order |
| TaskBuilder.Targets | essh/lualib.go:244-264 | a string names itself; a table with an array part names the strings of its converted slice; anything else names no target |
| TaskBuilder.GoStringsOfConverted | essh/lualib.go:247-251 | converting values and keeping the Go strings gives the same as keeping the Lua strings |
| TaskBuilder.TargetsOfValue | essh/lualib.go:244-264 | a string names one target; a table with an array part names the strings at indices 1..MaxN in order; anything else names none |
| TaskBuilder.CollectTargets | essh/lualib.go:244-253 | the targets-collecting step gives exactly `Targets` of the value |
| TaskBuilder.KeepStrings | essh/lualib.go:247-251 | the loop over a converted slice keeps exactly its strings, in order |
| TaskBuilder.ResolvePrefix | essh/lualib.go:270-281 | true picks the remote or local default by the task's kind, false keeps the current prefix, a string is used as it is |
| TaskBuilder.PrepareOf | essh/lualib.go:283-315 | nil gives no callback, a function gives that callback, anything else is the "prepare have to be function." error |
| TaskBuilder.RunPrepare | essh/lualib.go:286-311 | prepare succeeds exactly when the call did not raise and did not return false; a raised error is passed on with its message unchanged, and false becomes the error "returned false from the prepare function." |
| TaskBuilder.PlainFields | essh/lualib.go:207-238 | the fresh task with its name; description, script and file are the string values of those fields or "", and each flag is set exactly when its field is true |
| TaskBuilder.TaskOf | essh/lualib.go:206-318 | a built task has the given name; its description, script and file are the string values of those fields or ""; it never has both file and script non-empty, never has both on and foreach targets, holds the targets of `on` and `foreach`, and has each flag set exactly when that field is true |
| TaskBuilder.TaskOutcome | essh/lualib.go:240-315 | a task is built exactly when neither exclusivity check fails and prepare is nil or a function, and the errors come in the order file/script, on/foreach, prepare |
| TaskBuilder.TaskPrefixAndPrepare | essh/lualib.go:270-315 | with prefix true the prefix is the remote default exactly for tasks with targets and the local default otherwise; a string is kept; anything else leaves it empty; the callback is stored when given |
| TaskBuilder.ReadString | essh/lualib.go:210-213 | a string value replaces the field, anything else leaves it as it was |
| TaskBuilder.ReadBool | essh/lualib.go:215-218 | a boolean value replaces the field, anything else leaves it as it was |
| TaskBuilder.ReadBase | essh/lualib.go:207-238 | the field-by-field reads give exactly `PlainFields` |
| TaskBuilder.ApplyPrefix | essh/lualib.go:270-281 | the prefix step changes only the prefix, to `ResolvePrefix` of the value for the task's kind |
| TaskBuilder.ReadPrepare | essh/lualib.go:283-315 | the prepare step gives exactly `PrepareOf` |
| TaskBuilder.BuildTask | essh/lualib.go:206-316 | the step-by-step construction gives exactly `TaskOf` |
| Context.PayloadStep | essh/lualib.go:450-458 | one argument that is a string or number is stored and nothing is returned; a bad argument raises and stores nothing; otherwise the payload is returned unchanged |
| Context.ReadAfterWrite | essh/lualib.go:450-458 | a read after a write returns what was written |
| Context.OnlyWritesChangePayload | essh/lualib.go:450-458 | the payload only changes by a successful one-argument write, and then to the written string |
| Context.TaskContext.Payload | essh/lualib.go:450-458 | the result and the new payload are those of `PayloadStep` on the old payload |
| Context.WriteThenRead | essh/lualib.go:450-458 | a callback that writes a string and reads it back gets that string |
| Essh.LoadModule | essh/lualib.go:324-344 | each load failure raises its own error; success gives a module of that name whose value is the last value the script returned, or the last argument of `require` when it returned none |
| Essh.IntegerNamesDiffer | essh/lualib.go:321 | two different integer arguments to `require` are read as two different module names |
| Essh.ModuleName | essh/lualib.go:321 | the name is the first argument when it is a string or a number; a missing or other first argument is rejected |
| Essh.RequireSpec | essh/lualib.go:320-350 | a bad name argument raises; a registered name returns its cached value and leaves the table alone; a failed load raises `LoadModule`'s error (the fetch error, the prefixed missing-index text or the script's error) and leaves the table alone; a success adds exactly that name and never overwrites an entry |
| Essh.RequireIsIdempotent | essh/lualib.go:323-347 | a second require of a name that loaded gives the same value and table, whatever loading would give the second time |
| Essh.RequireLoadsMissingOnly | essh/lualib.go:323-347 | loading happens only for a missing name; a successful load is registered under that name, and a failed one raises the loader's error |
| Essh.Globals.RegisterHost | essh/lualib.go:100-172 | on success exactly `HostOf`'s host is appended; on error nothing changes; tasks and modules never change |
| Essh.Globals.RegisterTask | essh/lualib.go:206-318 | on success exactly `TaskOf`'s task is appended; on error nothing changes; hosts and modules never change |
| Essh.Globals.Require | essh/lualib.go:320-350 | the result and the new module table are those of `RequireSpec`, the registry stays valid, and the log of loaded names grows by the name exactly when it was newly loaded |
| Essh.Globals.Reset | essh/lualib.go:93-98 | clears hosts and tasks and keeps the loaded modules |
| Essh.RequireResetRequire | essh/lualib.go:93-98 | a module required again after a reset is not loaded again and gives the same value |

## Left out

- `InitLuaState`, `registerTaskContextClass`, `newLTaskContext` and `checkTaskContext`: global registration, preloaded library modules and userdata/metatable plumbing. `TaskContext.Payload` receives the context directly.
- `esshHost` and `esshTask`: the procedural and DSL calling conventions only route to `registerHost`/`registerTask`, which are modelled as `Globals.RegisterHost`/`Globals.RegisterTask`.
- The Lua interpreter: protected calls are `CallOutcome`s and module loading is a `LoadOutcome` argument. `Module.Load`, `os.Stat` and `L.DoFile` are I/O, and `updateFlag` only matters to the loader. A module script that itself calls `require`, `Host` or `Task` is not modelled.
- Floating point: a number is an integer or an opaque fractional value with its printed text. `k.String()` of an integer outside the int64 range, and the float64 mantissa of an integer of magnitude 2^53 or more (where float64 rounding changes the digits), are not modelled; map keys of magnitude 10^6 or more are printed in exponent form (`FloatText`).
- Table keys that are tables, functions or userdata; only boolean, string and number keys are modelled.
- `unicode.IsUpper` is modelled for ASCII and the Latin-1 upper-case letters only.
- Lua strings are byte strings, while the model's `Str` holds a sequence of characters. At line 104 Go decodes the key's first rune from UTF-8 and an invalid byte sequence reads as U+FFFD; `FirstRune` takes the first character instead. Since U+FFFD is not upper case, such a key is dropped either way, but byte-level encoding is not captured.
- Hash iteration order: a table's `ForEach` order is taken to be the order of its entries.
- Lua.MaxN: gopher-lua's `MaxN` is the length of the table's array part, and that part can hold nil holes. A table built as `{1, nil, 3}` has keys 1 and 3 and can have `MaxN` 3, giving a three-item slice with nil in the middle. The model's `MaxN` is the length of the run of present keys 1..n, so the same keys give 1 and a one-item slice. Likewise a table built as `{nil, 2, 3}` has keys 2 and 3 and can have `MaxN` 3 in the library, giving a slice with nil first, where the model's `MaxN` is 0 and the table becomes a map. Tables whose integer keys 1..n have no gaps give the same answer in both.
- Lua.Message: the "invalid hook type" message does not include the printed hook value. The value itself is kept in `InvalidHookType`.
- Lua.Message: it is the message body only. gopher-lua's `L.RaiseError` is library code that puts the calling script's position in front of every raised message (lines 166, 241, 267, 313, 328, 333 and 336); that prefix is not modelled.
- Lua.FixedMessagesDiffer: only four of its six texts are literal in the source. The hook-type error of lines 188 and 199 prints the hook value after "invalid hook type", so in the source two hook errors with different values have different texts. The "string expected" text stands in for gopher-lua's own `CheckString` message (lines 321 and 453), which is library code.
- TaskBuilder.NewTask: `NewTask` is defined outside `lualib.go`. The model assumes it gives a task whose every field has its zero value: empty strings, false flags, no targets, no prefix and no prepare callback. `TaskPrefixAndPrepare` relies on this when a non-boolean, non-string prefix leaves the prefix empty.
- TaskBuilder.DefaultPrefixRemote, TaskBuilder.DefaultPrefixLocal: their texts are defined outside `lualib.go`, so stand-in strings are used. Only the fact that they differ is relied on.
- `Host`, `Task` and `Module` are updated in place in Go. Here they are values that the builders return.
- A hook error in `registerHost` is a Go `panic`, while the other errors are raised into the Lua state. Both are modelled as the same `Err` result.
- A task with neither `file` nor `script` is accepted (`TaskOutcome`). For the modelled `MaxN`, keys 1 and 3 give a one-item slice (`GapEndsArrayPart`), as the `Lua.MaxN` line above explains.
- Tables as shared references: a table is a finite value here. A table that contains itself (`t[1] = t`, given as `on`) makes `toGoValue` recurse without end and crash the process, and a table stored in a host's config can still be changed by the script after registration; neither is captured.
- Entries holding nil: a Lua table never stores a nil value (assigning nil removes the key), but the model's entry lists do not exclude one, and its lemmas do not assume this. For such a list `MaxN` counts the key and `TagsOf` rejects the entry, where Lua would have no entry at all. Nor do they exclude two entries with the same key, which a Lua table cannot hold either. With two `"User"` entries, `ExportedConfig`, `TagsOf` and `MapOf` visit both, and `Get`/`Field` read the first, whereas Go's `RawSet` at essh/lualib.go:110 would keep the later value.
