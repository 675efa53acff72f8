/** The task builder: `registerTask` (essh/lualib.go). A task's configuration
    table becomes a `Task` record; mutually exclusive options are rejected,
    the prefix is resolved and the `prepare` callback is checked. */
module TaskBuilder {
  import opened Results
  import opened Lua
  import opened Convert

  datatype Task = Task(
    name: string,
    description: string,
    pty: bool,
    parallel: bool,
    privileged: bool,
    script: string,
    file: string,
    on: seq<string>,
    foreach: seq<string>,
    prefix: string,
    prepare: Option<nat>)

  /** A fresh task: every field at its zero value. */
  function NewTask(): (t: Task)
    ensures t.on == [] && t.foreach == [] && t.prefix == "" && t.prepare == None
  {
    Task("", "", false, false, false, "", "", [], [], "", None)
  }

  /** A task is remote when it names target hosts, by `on` or by `foreach`. */
  predicate IsRemoteTask(t: Task) {
    |t.on| > 0 || |t.foreach| > 0
  }

  /** The default output prefixes of remote and local tasks. Their actual
      texts live outside this model; only that they differ matters here. */
  const DefaultPrefixRemote: string := "remote-prefix"
  const DefaultPrefixLocal: string := "local-prefix"

  // ---------------------------------------------------------------------
  // Targets (`on` and `foreach`)

  /** The Go strings of a converted slice, in order; other items are skipped. */
  function GoStrings(items: seq<GoValue>): (r: seq<string>)
    ensures |r| <= |items|
    decreases |items|
  {
    if items == [] then []
    else
      var n := |items| - 1;
      assert items == items[..n] + [items[n]];
      var init := GoStrings(items[..n]);
      if items[n].GoString? then init + [items[n].s] else init
  }

  /** The Lua strings of a sequence of values, in order. */
  function LuaStrings(vs: seq<Value>): (r: seq<string>)
    ensures |r| <= |vs|
    decreases |vs|
  {
    if vs == [] then []
    else
      var n := |vs| - 1;
      assert vs == vs[..n] + [vs[n]];
      var init := LuaStrings(vs[..n]);
      if vs[n].Str? then init + [vs[n].s] else init
  }

  /** Keeping the strings of two sequences one after the other is keeping
      those of each, in order: no string is dropped, repeated or moved. */
  lemma {:induction false} GoStringsAppend(a: seq<GoValue>, b: seq<GoValue>)
    ensures GoStrings(a + b) == GoStrings(a) + GoStrings(b)
    decreases |b|
  {
    if b == [] {
      assert a + b == a;
    } else {
      var n, ab := |b| - 1, a + b;
      assert ab[..|ab| - 1] == a + b[..n] && ab[|ab| - 1] == b[n];
      GoStringsAppend(a, b[..n]);
    }
  }

  /** A single item keeps its string, or nothing. */
  lemma GoStringsOfOne(x: GoValue)
    ensures GoStrings([x]) == if x.GoString? then [x.s] else []
  {
    assert [x][..0] == [];
  }

  lemma {:induction false} LuaStringsAppend(a: seq<Value>, b: seq<Value>)
    ensures LuaStrings(a + b) == LuaStrings(a) + LuaStrings(b)
    decreases |b|
  {
    if b == [] {
      assert a + b == a;
    } else {
      var n, ab := |b| - 1, a + b;
      assert ab[..|ab| - 1] == a + b[..n] && ab[|ab| - 1] == b[n];
      LuaStringsAppend(a, b[..n]);
    }
  }

  lemma LuaStringsOfOne(v: Value)
    ensures LuaStrings([v]) == if v.Str? then [v.s] else []
  {
    assert [v][..0] == [];
  }

  /** When every item is a string, all of them are kept, in order. */
  lemma {:induction false} GoStringsOfStrings(items: seq<GoValue>)
    requires forall i :: 0 <= i < |items| ==> items[i].GoString?
    ensures |GoStrings(items)| == |items|
    ensures forall i :: 0 <= i < |items| ==> GoStrings(items)[i] == items[i].s
    decreases |items|
  {
    if items != [] {
      GoStringsOfStrings(items[..|items| - 1]);
    }
  }

  lemma {:induction false} LuaStringsOfStrings(vs: seq<Value>)
    requires forall i :: 0 <= i < |vs| ==> vs[i].Str?
    ensures |LuaStrings(vs)| == |vs|
    ensures forall i :: 0 <= i < |vs| ==> LuaStrings(vs)[i] == vs[i].s
    decreases |vs|
  {
    if vs != [] {
      LuaStringsOfStrings(vs[..|vs| - 1]);
    }
  }

  /** The target hosts an `on` or `foreach` value names: one string, or the
      strings of a table's array part. */
  function Targets(v: Value): (r: seq<string>)
    ensures v.Str? ==> r == [v.s]
    ensures !v.Str? && !(v.Table? && MaxN(v.entries) > 0) ==> r == []
    ensures v.Table? && MaxN(v.entries) > 0 ==> r == GoStrings(SliceOf(v.entries))
  {
    match ToString(v)
    case Some(s) => [s]
    case None =>
      match ToSlice(v)
      case Some(items) => GoStrings(items)
      case None => []
  }

  /** Converting and then keeping the strings is keeping the Lua strings. */
  lemma {:induction false} GoStringsOfConverted(vs: seq<Value>, items: seq<GoValue>)
    requires |items| == |vs|
    requires forall i :: 0 <= i < |vs| ==> items[i] == ToGoValue(vs[i])
    ensures GoStrings(items) == LuaStrings(vs)
    decreases |vs|
  {
    if vs != [] {
      var n := |vs| - 1;
      GoStringsOfConverted(vs[..n], items[..n]);
      StringsConvertToStrings(vs[n]);
    }
  }

  /** The targets of a value, stated on the Lua value itself: a string is a
      single target; a table with an array part names the strings at indices
      1..MaxN, in index order, skipping every other value (numbers too); any
      other value names no target. */
  lemma TargetsOfValue(v: Value)
    ensures v.Str? ==> Targets(v) == [v.s]
    ensures v.Table? && MaxN(v.entries) > 0 ==> Targets(v) == LuaStrings(ArrayPart(v.entries))
    ensures !v.Str? && !(v.Table? && MaxN(v.entries) > 0) ==> Targets(v) == []
  {
    if v.Table? && MaxN(v.entries) > 0 {
      GoStringsOfConverted(ArrayPart(v.entries), ToSlice(v).value);
    }
  }

  /** The loop of `registerTask` that collects the targets of `on` or
      `foreach`. */
  method CollectTargets(v: Value) returns (targets: seq<string>)
    ensures targets == Targets(v)
  {
    match ToString(v) {
      case Some(s) => return [s];
      case None =>
    }
    match ToSlice(v) {
      case Some(items) => targets := KeepStrings(items);
      case None => targets := [];
    }
  }

  /** The loop over a converted slice that keeps its strings. */
  method KeepStrings(items: seq<GoValue>) returns (targets: seq<string>)
    ensures targets == GoStrings(items)
  {
    targets := [];
    for i := 0 to |items|
      invariant targets == GoStrings(items[..i])
    {
      assert items[..i + 1][..i] == items[..i];
      if items[i].GoString? {
        targets := targets + [items[i].s];
      }
    }
    assert items[..|items|] == items;
  }

  // ---------------------------------------------------------------------
  // Prefix and prepare

  /** The prefix of a task: `true` picks the default of its kind, `false`
      keeps `current`, a string is used as it is, anything else keeps
      `current`. */
  function ResolvePrefix(v: Value, remote: bool, current: string): (p: string)
    ensures v == Bool(true) ==> p == if remote then DefaultPrefixRemote else DefaultPrefixLocal
    ensures v.Str? ==> p == v.s
    ensures !(v == Bool(true) || v.Str?) ==> p == current
  {
    match ToBool(v)
    case Some(b) => if b then (if remote then DefaultPrefixRemote else DefaultPrefixLocal) else current
    case None =>
      match ToString(v)
      case Some(s) => s
      case None => current
  }

  /** The `prepare` option: absent, a function, or an error. */
  function PrepareOf(v: Value): (r: Result<Option<nat>, Error>)
    ensures r.Ok? <==> v.Nil? || v.Function?
    ensures r.Err? ==> r.error == PrepareNotFunction
    ensures r.Ok? ==> (r.value.Some? <==> v.Function?) && (v.Function? ==> r.value == Some(v.id))
  {
    if v == Nil then Ok(None)
    else
      match ToLFunction(v)
      case Some(fn) => Ok(Some(fn))
      case None => Err(PrepareNotFunction)
  }

  /** The errors a run of the prepare callback reports. */
  datatype PrepareError = CallError(message: string) | ReturnedFalse

  function PrepareMessage(e: PrepareError): string {
    match e
    case CallError(message) => message
    case ReturnedFalse => "returned false from the prepare function."
  }

  /** Running the prepare callback: its error if it raised one, a failure if
      it returned `false`, success for anything else it returned (nil, true,
      or a non-boolean value). */
  function RunPrepare(outcome: CallOutcome): (r: Option<PrepareError>)
    ensures r.None? <==> outcome.Returned? && outcome.value != Bool(false)
    ensures outcome.Raised? ==> r == Some(CallError(outcome.message))
    ensures outcome == Returned(Bool(false)) ==> r == Some(ReturnedFalse)
    ensures outcome.Raised? ==> PrepareMessage(r.value) == outcome.message
    ensures outcome == Returned(Bool(false)) ==> PrepareMessage(r.value) == "returned false from the prepare function."
  {
    match outcome
    case Raised(message) => Some(CallError(message))
    case Returned(ret) =>
      if ret == Nil then None
      else
        match ToBool(ret)
        case Some(b) => if b then None else Some(ReturnedFalse)
        case None => None
  }

  // ---------------------------------------------------------------------
  // The task

  /** A fresh task with its name and its plain fields, given the values
      found under `description`, `pty`, `parallel`, `privileged`, `script`
      and `file`; a value of the wrong type leaves the zero value. */
  function PlainFields(name: string, description: Value, pty: Value, parallel: Value,
                       privileged: Value, script: Value, file: Value): (t: Task)
    ensures t.on == [] && t.foreach == [] && t.prefix == "" && t.prepare == None
    ensures t.name == name
    ensures t.description == (if description.Str? then description.s else "")
    ensures (t.pty <==> pty == Bool(true)) && (t.parallel <==> parallel == Bool(true))
    ensures t.privileged <==> privileged == Bool(true)
    ensures t.script == (if script.Str? then script.s else "")
    ensures t.file == (if file.Str? then file.s else "")
  {
    Task(name,
         ToString(description).GetOr(""),
         ToBool(pty).GetOr(false),
         ToBool(parallel).GetOr(false),
         ToBool(privileged).GetOr(false),
         ToString(script).GetOr(""),
         ToString(file).GetOr(""),
         [], [], "", None)
  }

  /** The plain fields read from a configuration table. */
  function BaseTask(name: string, config: seq<Entry>): Task {
    PlainFields(name, Field(config, "description"), Field(config, "pty"), Field(config, "parallel"),
                Field(config, "privileged"), Field(config, "script"), Field(config, "file"))
  }

  /** `registerTask`, as a function of the name and configuration table:
      the task it appends, or the error it raises. */
  function TaskOf(name: string, config: seq<Entry>): (r: Result<Task, Error>)
    ensures r.Ok? ==> r.value.name == name
    ensures r.Ok? ==> !(r.value.file != "" && r.value.script != "")
    ensures r.Ok? ==> !(|r.value.on| > 0 && |r.value.foreach| > 0)
    ensures r.Ok? ==> r.value.on == Targets(Field(config, "on")) && r.value.foreach == Targets(Field(config, "foreach"))
    ensures r.Ok? ==> r.value.description == (if Field(config, "description").Str? then Field(config, "description").s else "")
    ensures r.Ok? ==> r.value.script == (if Field(config, "script").Str? then Field(config, "script").s else "")
    ensures r.Ok? ==> r.value.file == (if Field(config, "file").Str? then Field(config, "file").s else "")
    ensures r.Ok? ==> (r.value.pty <==> Field(config, "pty") == Bool(true))
    ensures r.Ok? ==> (r.value.parallel <==> Field(config, "parallel") == Bool(true))
    ensures r.Ok? ==> (r.value.privileged <==> Field(config, "privileged") == Bool(true))
  {
    var t1 := BaseTask(name, config);
    if t1.file != "" && t1.script != "" then Err(FileAndScript)
    else
      var t2 := t1.(on := Targets(Field(config, "on")), foreach := Targets(Field(config, "foreach")));
      if |t2.foreach| >= 1 && |t2.on| >= 1 then Err(ForeachAndOn)
      else
        var t3 := t2.(prefix := ResolvePrefix(Field(config, "prefix"), IsRemoteTask(t2), t2.prefix));
        var prepare :- PrepareOf(Field(config, "prepare"));
        Ok(t3.(prepare := prepare))
  }

  /** The two exclusivity checks and the prepare check decide the outcome,
      in that order: both a non-empty `file` and a non-empty `script` is
      rejected first, then targets from both `on` and `foreach`, then a
      `prepare` that is not a function. */
  lemma TaskOutcome(name: string, config: seq<Entry>)
    ensures var file, script := Field(config, "file"), Field(config, "script");
      var bothSources := file.Str? && file.s != "" && script.Str? && script.s != "";
      var bothTargets := |Targets(Field(config, "on"))| > 0 && |Targets(Field(config, "foreach"))| > 0;
      var badPrepare := !(Field(config, "prepare").Nil? || Field(config, "prepare").Function?);
      && (TaskOf(name, config).Ok? <==> !bothSources && !bothTargets && !badPrepare)
      && (bothSources ==> TaskOf(name, config) == Err(FileAndScript))
      && (!bothSources && bothTargets ==> TaskOf(name, config) == Err(ForeachAndOn))
      && (!bothSources && !bothTargets && badPrepare ==> TaskOf(name, config) == Err(PrepareNotFunction))
  {
  }

  /** The prefix of a built task: with `prefix = true` it is the remote
      default exactly when the task has targets, and the local default
      otherwise; a string is kept; anything else leaves it empty. The
      prepare field holds the callback, if one was given. */
  lemma TaskPrefixAndPrepare(name: string, config: seq<Entry>)
    requires TaskOf(name, config).Ok?
    ensures var t, p := TaskOf(name, config).value, Field(config, "prefix");
      && (p == Bool(true) ==> (t.prefix == DefaultPrefixRemote <==> IsRemoteTask(t)))
      && (p == Bool(true) ==> (t.prefix == DefaultPrefixLocal <==> !IsRemoteTask(t)))
      && (p.Str? ==> t.prefix == p.s)
      && (!(p == Bool(true) || p.Str?) ==> t.prefix == "")
      && (t.prepare.Some? <==> Field(config, "prepare").Function?)
      && (t.prepare.Some? ==> t.prepare.value == Field(config, "prepare").id)
  {
  }

  /** One `if s, ok := toString(v); ok { field = s }` step. */
  method ReadString(v: Value, current: string) returns (field: string)
    ensures field == ToString(v).GetOr(current)
  {
    field := current;
    match ToString(v) {
      case Some(s) => field := s;
      case None =>
    }
  }

  /** One `if b, ok := toBool(v); ok { field = b }` step. */
  method ReadBool(v: Value, current: bool) returns (field: bool)
    ensures field == ToBool(v).GetOr(current)
  {
    field := current;
    match ToBool(v) {
      case Some(b) => field := b;
      case None =>
    }
  }

  /** The first part of `registerTask`: the plain fields, one by one. */
  method ReadBase(name: string, description: Value, pty: Value, parallel: Value,
                  privileged: Value, script: Value, file: Value) returns (task: Task)
    ensures task == PlainFields(name, description, pty, parallel, privileged, script, file)
  {
    task := NewTask();
    task := task.(name := name);
    var d := ReadString(description, task.description);
    task := task.(description := d);
    var b := ReadBool(pty, task.pty);
    task := task.(pty := b);
    b := ReadBool(parallel, task.parallel);
    task := task.(parallel := b);
    b := ReadBool(privileged, task.privileged);
    task := task.(privileged := b);
    var sc := ReadString(script, task.script);
    task := task.(script := sc);
    var f := ReadString(file, task.file);
    task := task.(file := f);
  }

  /** The prefix step of `registerTask`. */
  method ApplyPrefix(task: Task, prefix: Value) returns (t: Task)
    ensures t == task.(prefix := ResolvePrefix(prefix, IsRemoteTask(task), task.prefix))
  {
    t := task;
    match ToBool(prefix) {
      case Some(b) =>
        if b {
          if IsRemoteTask(t) {
            t := t.(prefix := DefaultPrefixRemote);
          } else {
            t := t.(prefix := DefaultPrefixLocal);
          }
        }
      case None =>
        match ToString(prefix) {
          case Some(p) => t := t.(prefix := p);
          case None =>
        }
    }
  }

  /** `registerTask`'s construction, step by step. */
  method BuildTask(name: string, config: seq<Entry>) returns (r: Result<Task, Error>)
    ensures r == TaskOf(name, config)
  {
    var task := ReadBase(name, Field(config, "description"), Field(config, "pty"), Field(config, "parallel"),
                         Field(config, "privileged"), Field(config, "script"), Field(config, "file"));
    if task.file != "" && task.script != "" {
      return Err(FileAndScript);
    }

    var on := CollectTargets(Field(config, "on"));
    var foreach := CollectTargets(Field(config, "foreach"));
    task := task.(on := on, foreach := foreach);
    if |task.foreach| >= 1 && |task.on| >= 1 {
      return Err(ForeachAndOn);
    }

    task := ApplyPrefix(task, Field(config, "prefix"));

    var prepare :- ReadPrepare(Field(config, "prepare"));
    task := task.(prepare := prepare);
    return Ok(task);
  }

  /** The `prepare` step of `registerTask`. */
  method ReadPrepare(prepare: Value) returns (r: Result<Option<nat>, Error>)
    ensures r == PrepareOf(prepare)
  {
    if prepare != Nil {
      match ToLFunction(prepare) {
        case Some(fn) => return Ok(Some(fn));
        case None => return Err(PrepareNotFunction);
      }
    }
    return Ok(None);
  }
}
