/** The global registry of the configuration layer (essh/lualib.go): the
    hosts and tasks that scripts define, appended to collections that
    `esshReset` clears, and the modules that `esshRequire` loads at most once
    per name and memoizes. */
module Essh {
  import opened Results
  import opened Lua
  import opened HostBuilder
  import opened TaskBuilder

  /** A loaded module: its name and the value its index script returned. */
  datatype Module = Module(name: string, value: Value)

  /** What fetching a module and running its index script can give: the
      fetch error, the error of the missing index file, the error the
      script raised, or the values the script returned. */
  datatype LoadOutcome =
    | FetchFailed(reason: string)
    | IndexMissing(reason: string)
    | ScriptFailed(reason: string)
    | Evaluated(results: seq<Value>)

  /** Loading a module that is not yet registered. The module value is the
      top of the Lua stack after the script ran: the last value it returned,
      or, when it returned none, `top`, the value that was on top before (the
      last argument passed to `require`). */
  function LoadModule(top: Value, name: string, outcome: LoadOutcome): (r: Result<Module, Error>)
    ensures r.Ok? <==> outcome.Evaluated?
    ensures r.Ok? ==> r.value.name == name
    ensures r.Ok? ==> (r.value.value ==
      if outcome.results == [] then top else outcome.results[|outcome.results| - 1])
    ensures outcome.FetchFailed? ==> r == Err(ModuleLoadFailed(outcome.reason))
    ensures outcome.IndexMissing? ==> r == Err(ModuleIndexMissing(outcome.reason))
    ensures outcome.ScriptFailed? ==> r == Err(ModuleScriptFailed(outcome.reason))
  {
    match outcome
    case FetchFailed(reason) => Err(ModuleLoadFailed(reason))
    case IndexMissing(reason) => Err(ModuleIndexMissing(reason))
    case ScriptFailed(reason) => Err(ModuleScriptFailed(reason))
    case Evaluated(results) =>
      Ok(Module(name, if results == [] then top else results[|results| - 1]))
  }

  /** `L.CheckString(1)` on the arguments of `require`: a missing first
      argument reads as nil and is rejected like any other non-string. */
  function ModuleName(args: seq<Value>): (r: Option<string>)
    ensures r.Some? <==> |args| > 0 && (args[0].Str? || args[0].Num?)
    ensures r.Some? ==> r == CheckString(args[0])
  {
    if args == [] then None else CheckString(args[0])
  }

  /** Two different integer arguments name two different modules, since
      each is read as its printed text. */
  lemma IntegerNamesDiffer(i: int, j: int)
    requires i != j
    ensures ModuleName([Num(Integer(i))]).Some? && ModuleName([Num(Integer(j))]).Some?
    ensures ModuleName([Num(Integer(i))]) != ModuleName([Num(Integer(j))])
  {
    IntegerTextsDiffer(i, j);
  }

  /** `esshRequire` on the module table `modules` with arguments `args`,
      where `outcome` is what loading would give: the value pushed (or the
      error raised) and the module table afterwards. */
  function RequireSpec(modules: map<string, Module>, args: seq<Value>, outcome: LoadOutcome): (r: (Result<Value, Error>, map<string, Module>))
    ensures ModuleName(args).None? ==> r == (Err(StringExpected(1)), modules)
    ensures ModuleName(args).Some? && ModuleName(args).value in modules ==>
      r == (Ok(modules[ModuleName(args).value].value), modules)
    ensures r.0.Err? ==> r.1 == modules
    ensures r.1.Keys == if r.0.Ok? then modules.Keys + {ModuleName(args).value} else modules.Keys
    ensures forall n :: n in modules ==> r.1[n] == modules[n]
    ensures r.0.Ok? ==> ModuleName(args).value in r.1 && r.0.value == r.1[ModuleName(args).value].value
    ensures ModuleName(args).Some? && ModuleName(args).value !in modules && !outcome.Evaluated? ==>
      r.0 == Err(LoadModule(args[|args| - 1], ModuleName(args).value, outcome).error)
  {
    match ModuleName(args)
    case None => (Err(StringExpected(1)), modules)
    case Some(name) =>
      if name in modules then (Ok(modules[name].value), modules)
      else
        match LoadModule(args[|args| - 1], name, outcome)
        case Err(e) => (Err(e), modules)
        case Ok(m) => (Ok(m.value), modules[name := m])
  }

  /** Requiring a module twice gives the same value, and the second require
      neither loads anything nor changes the module table, whatever loading
      would give the second time. */
  lemma RequireIsIdempotent(modules: map<string, Module>, args: seq<Value>, first: LoadOutcome, second: LoadOutcome)
    requires RequireSpec(modules, args, first).0.Ok?
    ensures var (r1, after) := RequireSpec(modules, args, first);
      RequireSpec(after, args, second) == (r1, after)
  {
  }

  /** A module is loaded only if its name is not yet registered; a
      successful load registers it under that name with the loaded value, and
      a failed one raises the loader's own error. */
  lemma RequireLoadsMissingOnly(modules: map<string, Module>, args: seq<Value>, outcome: LoadOutcome)
    requires ModuleName(args).Some?
    ensures var name := ModuleName(args).value;
      var (r, after) := RequireSpec(modules, args, outcome);
      && (name !in modules ==> (r.Ok? <==> outcome.Evaluated?))
      && (name !in modules && r.Ok? ==> after == modules[name := LoadModule(args[|args| - 1], name, outcome).value])
      && (name !in modules && r.Err? ==> r == Err(LoadModule(args[|args| - 1], name, outcome).error))
      && (name in modules ==> r == Ok(modules[name].value) && after == modules)
  {
  }

  /** The registry. `loaded` records, in order, the names whose loading
      succeeded; no name is loaded twice. */
  class Globals {
    var hosts: seq<Host>
    var tasks: seq<Task>
    var modules: map<string, Module>
    ghost var loaded: seq<string>

    ghost predicate Valid()
      reads this
    {
      && (forall n :: n in modules ==> modules[n].name == n)
      && (forall i :: 0 <= i < |loaded| ==> loaded[i] in modules)
      && (forall n :: n in modules ==> n in loaded)
      && (forall i, j :: 0 <= i < j < |loaded| ==> loaded[i] != loaded[j])
    }

    constructor ()
      ensures Valid()
      ensures hosts == [] && tasks == [] && modules == map[] && loaded == []
    {
      hosts := [];
      tasks := [];
      modules := map[];
      loaded := [];
    }

    /** `registerHost`: builds the host and appends it; an error leaves
        every collection as it was. */
    method RegisterHost(name: string, config: seq<Entry>) returns (err: Option<Error>)
      requires Valid()
      modifies this
      ensures Valid()
      ensures HostOf(name, config).Ok? ==> err == None && hosts == old(hosts) + [HostOf(name, config).value]
      ensures HostOf(name, config).Err? ==> err == Some(HostOf(name, config).error) && hosts == old(hosts)
      ensures tasks == old(tasks) && modules == old(modules) && loaded == old(loaded)
    {
      var r := BuildHost(name, config);
      match r {
        case Ok(h) =>
          hosts := hosts + [h];
          return None;
        case Err(e) =>
          return Some(e);
      }
    }

    /** `registerTask`: builds the task and appends it; an error leaves
        every collection as it was. */
    method RegisterTask(name: string, config: seq<Entry>) returns (err: Option<Error>)
      requires Valid()
      modifies this
      ensures Valid()
      ensures TaskOf(name, config).Ok? ==> err == None && tasks == old(tasks) + [TaskOf(name, config).value]
      ensures TaskOf(name, config).Err? ==> err == Some(TaskOf(name, config).error) && tasks == old(tasks)
      ensures hosts == old(hosts) && modules == old(modules) && loaded == old(loaded)
    {
      var r := BuildTask(name, config);
      match r {
        case Ok(t) =>
          tasks := tasks + [t];
          return None;
        case Err(e) =>
          return Some(e);
      }
    }

    /** `esshRequire`: check the module table, load on a miss, insert. */
    method Require(args: seq<Value>, outcome: LoadOutcome) returns (r: Result<Value, Error>)
      requires Valid()
      modifies this
      ensures Valid()
      ensures (r, modules) == RequireSpec(old(modules), args, outcome)
      ensures loaded == if r.Ok? && ModuleName(args).value !in old(modules)
                        then old(loaded) + [ModuleName(args).value] else old(loaded)
      // Running the index script is abstracted by `outcome`, which has no
      // effects, so a module that calls `Host` or `Task` is not modelled.
      ensures hosts == old(hosts) && tasks == old(tasks)
    {
      var name;
      match ModuleName(args) {
        case None => return Err(StringExpected(1));
        case Some(s) => name := s;
      }
      if name in modules {
        return Ok(modules[name].value);
      }
      var m :- LoadModule(args[|args| - 1], name, outcome);
      modules := modules[name := m];
      loaded := loaded + [name];
      return Ok(m.value);
    }

    /** `esshReset`: forgets every host and task; loaded modules stay. */
    method Reset()
      requires Valid()
      modifies this
      ensures Valid()
      ensures hosts == [] && tasks == []
      ensures modules == old(modules) && loaded == old(loaded)
    {
      tasks := [];
      hosts := [];
    }
  }

  /** A module required again after a reset is not loaded again: the second
      require returns the first one's value. */
  method RequireResetRequire(g: Globals, args: seq<Value>, first: LoadOutcome, second: LoadOutcome)
    returns (r1: Result<Value, Error>, r2: Result<Value, Error>)
    requires g.Valid()
    modifies g
    ensures r1.Ok? ==> ModuleName(args).Some?
    ensures r1.Ok? ==> r2 == r1 && g.loaded == old(g.loaded) + (if ModuleName(args).value in old(g.modules) then [] else [ModuleName(args).value])
  {
    r1 := g.Require(args, first);
    g.Reset();
    r2 := g.Require(args, second);
  }
}
