/** The host builder: `registerHost`, `registerHook` and `registerRemoteHook`
    (essh/lualib.go). A host's configuration table becomes a `Host` record:
    exported config keys, hooks, description, visibility and tags. */
module HostBuilder {
  import opened Results
  import opened Lua
  import opened Convert

  /** A hook: a Lua function run in-process through a protected call, or a
      command string that runs on the remote side. */
  datatype Hook = Callback(fn: nat) | Command(command: string)

  datatype Host = Host(
    name: string,
    config: seq<Entry>,
    hooks: map<string, Hook>,
    description: string,
    hidden: bool,
    tags: seq<string>)

  /** The hook points, in the order `registerHost` registers them. `before`
      and `after` are the deprecated spellings of `before_connect` and
      `after_disconnect`; both kinds are kept. */
  const HookPoints: seq<string> := ["before", "before_connect", "after_connect", "after", "after_disconnect"]

  /** The position in `HookPoints` of `after_connect`, the one hook point
      whose hook runs on the remote side. */
  const RemoteIndex: nat := 2

  // ---------------------------------------------------------------------
  // Config: only the keys whose first rune is upper case are kept.

  /** Upper-case letters: ASCII and the Latin-1 supplement. */
  predicate IsUpper(c: char) {
    ('A' <= c <= 'Z') || ('À' <= c <= 'Þ' && c != '×')
  }

  /** The first rune of a string, or the zero rune of an empty one. */
  function FirstRune(s: string): char {
    if |s| == 0 then '\0' else s[0]
  }

  predicate Exported(k: Key) {
    IsUpper(FirstRune(KeyText(k)))
  }

  /** The entries of `es` whose key is exported, in their order. */
  function ExportedConfig(es: seq<Entry>): (r: seq<Entry>)
    ensures forall e :: e in r <==> e in es && Exported(e.key)
    ensures |r| <= |es|
    decreases |es|
  {
    if es == [] then []
    else
      var n := |es| - 1;
      assert es == es[..n] + [es[n]];
      var init := ExportedConfig(es[..n]);
      if Exported(es[n].key) then init + [es[n]] else init
  }

  /** Key "User" is kept and key "user" is dropped. */
  lemma UpperCaseKeysAreExported()
    ensures Exported(StrKey("User")) && !Exported(StrKey("user"))
    ensures !Exported(StrKey("")) && !Exported(BoolKey(true)) && !Exported(BoolKey(false))
  {
  }

  // ---------------------------------------------------------------------
  // Hooks

  /** Whether a hook value is acceptable at hook point `i`: Nil (no hook)
      and strings everywhere, functions everywhere but at the remote point. */
  predicate Accepts(i: nat, v: Value) {
    v.Nil? || v.Str? || (v.Function? && i != RemoteIndex)
  }

  /** The hook an acceptable non-Nil value makes. */
  function HookFor(v: Value): Hook
    requires v.Str? || v.Function?
  {
    if v.Function? then Callback(v.id) else Command(v.s)
  }

  /** `registerHook`: writes `hooks[point]` and nothing else; Nil leaves the
      map as it was; a function becomes a callback, a string a command;
      anything else is an invalid hook type. */
  function RegisterHook(hooks: map<string, Hook>, point: string, hook: Value): (r: Result<map<string, Hook>, Error>)
    ensures r.Err? <==> !(hook.Nil? || hook.Function? || hook.Str?)
    ensures r.Err? ==> r.error == InvalidHookType(hook)
    ensures r.Ok? ==> r.value.Keys == if hook.Nil? then hooks.Keys else hooks.Keys + {point}
    ensures r.Ok? ==> forall p :: p in hooks && p != point ==> r.value[p] == hooks[p]
    ensures hook.Nil? ==> r == Ok(hooks)
    ensures r.Ok? && !hook.Nil? ==> r.value[point] == HookFor(hook)
  {
    if hook == Nil then Ok(hooks)
    else
      match ToLFunction(hook)
      case Some(fn) => Ok(hooks[point := Callback(fn)])
      case None =>
        match ToString(hook)
        case Some(s) => Ok(hooks[point := Command(s)])
        case None => Err(InvalidHookType(hook))
  }

  /** `registerRemoteHook`: as `registerHook`, but only a string is accepted,
      so a remote hook is never a callback. */
  function RegisterRemoteHook(hooks: map<string, Hook>, point: string, hook: Value): (r: Result<map<string, Hook>, Error>)
    ensures r.Err? <==> !(hook.Nil? || hook.Str?)
    ensures r.Err? ==> r.error == InvalidHookType(hook)
    ensures r.Ok? ==> r.value.Keys == if hook.Nil? then hooks.Keys else hooks.Keys + {point}
    ensures r.Ok? ==> forall p :: p in hooks && p != point ==> r.value[p] == hooks[p]
    ensures hook.Nil? ==> r == Ok(hooks)
    ensures r.Ok? && !hook.Nil? ==> r.value[point] == Command(hook.s)
  {
    if hook == Nil then Ok(hooks)
    else
      match ToString(hook)
      case Some(s) => Ok(hooks[point := Command(s)])
      case None => Err(InvalidHookType(hook))
  }

  /** The values stored at the five hook points, in registration order. */
  function PointValues(tb: seq<Entry>): (vs: seq<Value>)
    ensures |vs| == |HookPoints|
    ensures forall i :: 0 <= i < |HookPoints| ==> vs[i] == Field(tb, HookPoints[i])
  {
    seq(|HookPoints|, i requires 0 <= i < |HookPoints| => Field(tb, HookPoints[i]))
  }

  /** The hooks of a `hooks` sub-table, registered in the order of
      `HookPoints`; the first failure stops the registration. */
  function HooksOf(tb: seq<Entry>): (r: Result<map<string, Hook>, Error>)
    ensures r.Ok? <==> forall i :: 0 <= i < |HookPoints| ==> Accepts(i, Field(tb, HookPoints[i]))
  {
    HooksSucceed(PointValues(tb));
    HooksFrom(PointValues(tb))
  }

  /** Registration of the values `vs` found at the five hook points. */
  function HooksFrom(vs: seq<Value>): Result<map<string, Hook>, Error>
    requires |vs| == |HookPoints|
  {
    var h1 :- StepAt(map[], vs, 0);
    var h2 :- StepAt(h1, vs, 1);
    var h3 :- StepAt(h2, vs, 2);
    var h4 :- StepAt(h3, vs, 3);
    StepAt(h4, vs, 4)
  }

  /** Registration succeeds exactly when every point's value is acceptable. */
  lemma HooksSucceed(vs: seq<Value>)
    requires |vs| == |HookPoints|
    ensures HooksFrom(vs).Ok? <==> forall i :: 0 <= i < |HookPoints| ==> Accepts(i, vs[i])
  {
  }

  /** After a successful registration the hooks are exactly the points with a
      non-Nil value, each holding the hook its value makes. */
  lemma HooksContents(vs: seq<Value>)
    requires |vs| == |HookPoints| && HooksFrom(vs).Ok?
    ensures forall p :: p in HooksFrom(vs).value ==> p in HookPoints
    ensures forall i :: 0 <= i < |HookPoints| ==> (HookPoints[i] in HooksFrom(vs).value <==> vs[i] != Nil)
    ensures forall i :: 0 <= i < |HookPoints| && vs[i] != Nil ==> HooksFrom(vs).value[HookPoints[i]] == HookFor(vs[i])
  {
    ChainRegisters(vs);
    assert HookPoints[..5] == HookPoints;
  }

  /** The five hook points are five different names. */
  lemma HookPointsDistinct()
    ensures forall i, j :: 0 <= i < j < |HookPoints| ==> HookPoints[i] != HookPoints[j]
  {
    assert |HookPoints[0]| == 6 && |HookPoints[1]| == 14 && |HookPoints[2]| == 13;
    assert |HookPoints[3]| == 5 && |HookPoints[4]| == 16;
  }

  /** The five successful steps together register exactly the five points. */
  lemma ChainRegisters(vs: seq<Value>)
    requires |vs| == |HookPoints| && HooksFrom(vs).Ok?
    ensures RegisteredUpTo(HooksFrom(vs).value, vs, |HookPoints|)
  {
    HookPointsDistinct();
    var h0: map<string, Hook> := map[];
    RegisterStep(h0, vs, 0);
    var h1 := StepAt(h0, vs, 0).value;
    RegisterStep(h1, vs, 1);
    var h2 := StepAt(h1, vs, 1).value;
    RegisterStep(h2, vs, 2);
    var h3 := StepAt(h2, vs, 2).value;
    RegisterStep(h3, vs, 3);
    var h4 := StepAt(h3, vs, 3).value;
    RegisterStep(h4, vs, 4);
  }

  /** The registration of point `n`: `registerRemoteHook` at the remote
      point, `registerHook` at the others. */
  function StepAt(hooks: map<string, Hook>, vs: seq<Value>, n: nat): Result<map<string, Hook>, Error>
    requires |vs| == |HookPoints| && n < |HookPoints|
  {
    if n == RemoteIndex then RegisterRemoteHook(hooks, HookPoints[n], vs[n])
    else RegisterHook(hooks, HookPoints[n], vs[n])
  }

  /** `hooks` holds exactly the hooks of the first `n` points. */
  ghost predicate RegisteredUpTo(hooks: map<string, Hook>, vs: seq<Value>, n: nat)
    requires |vs| == |HookPoints| && n <= |HookPoints|
  {
    && (forall j :: 0 <= j < n ==> Accepts(j, vs[j]))
    && (forall p :: p in hooks ==> p in HookPoints[..n])
    && (forall j :: 0 <= j < n ==> (HookPoints[j] in hooks <==> vs[j] != Nil))
    && (forall j :: 0 <= j < n && vs[j] != Nil ==> hooks[HookPoints[j]] == HookFor(vs[j]))
  }

  /** One successful registration extends the hooks of the first `n` points
      to those of the first `n + 1`. */
  lemma RegisterStep(hooks: map<string, Hook>, vs: seq<Value>, n: nat)
    requires |vs| == |HookPoints| && n < |HookPoints|
    requires forall i, j :: 0 <= i < j < |HookPoints| ==> HookPoints[i] != HookPoints[j]
    requires RegisteredUpTo(hooks, vs, n) && StepAt(hooks, vs, n).Ok?
    ensures RegisteredUpTo(StepAt(hooks, vs, n).value, vs, n + 1)
  {
    var r := StepAt(hooks, vs, n).value;
    assert HookPoints[..n + 1] == HookPoints[..n] + [HookPoints[n]];
    forall j | 0 <= j < n
      ensures HookPoints[j] != HookPoints[n]
    {
    }
  }

  /** Point `i` is the first whose value is not acceptable. */
  ghost predicate FirstRejected(vs: seq<Value>, i: nat)
    requires i < |vs|
  {
    !Accepts(i, vs[i]) && forall k :: 0 <= k < i ==> Accepts(k, vs[k])
  }

  /** A failed registration reports the value of the first point, in
      registration order, that does not accept it. */
  lemma HooksFirstError(vs: seq<Value>)
    requires |vs| == |HookPoints| && HooksFrom(vs).Err?
    ensures exists i :: 0 <= i < |HookPoints| && FirstRejected(vs, i) && HooksFrom(vs).error == InvalidHookType(vs[i])
  {
    var e := HooksFrom(vs).error;
    if !Accepts(0, vs[0]) {
      assert FirstRejected(vs, 0) && e == InvalidHookType(vs[0]);
    } else if !Accepts(1, vs[1]) {
      assert FirstRejected(vs, 1) && e == InvalidHookType(vs[1]);
    } else if !Accepts(2, vs[2]) {
      assert FirstRejected(vs, 2) && e == InvalidHookType(vs[2]);
    } else if !Accepts(3, vs[3]) {
      assert FirstRejected(vs, 3) && e == InvalidHookType(vs[3]);
    } else {
      assert FirstRejected(vs, 4) && e == InvalidHookType(vs[4]);
    }
  }

  /** The remote point never holds a callback: `after_connect` is given a
      command string or nothing, and a function there fails registration. */
  lemma RemoteHookIsCommand(vs: seq<Value>)
    requires |vs| == |HookPoints|
    ensures HooksFrom(vs).Ok? && HookPoints[RemoteIndex] in HooksFrom(vs).value ==>
      vs[RemoteIndex].Str? && HooksFrom(vs).value[HookPoints[RemoteIndex]] == Command(vs[RemoteIndex].s)
    ensures vs[RemoteIndex].Function? ==> HooksFrom(vs).Err?
  {
    if HooksFrom(vs).Ok? {
      HooksContents(vs);
    }
  }

  /** Running a callback hook: the error of the protected call, if any; what
      the function returns is ignored. */
  function RunCallback(outcome: CallOutcome): (err: Option<string>)
    ensures err.Some? <==> outcome.Raised?
    ensures outcome.Raised? ==> err == Some(outcome.message)
  {
    match outcome
    case Raised(message) => Some(message)
    case Returned(_) => None
  }

  // ---------------------------------------------------------------------
  // Tags

  /** The tags of a `tags` table, in visiting order: every value must be a
      string, one that is not fails the whole host. */
  function TagsOf(es: seq<Entry>): (r: Result<seq<string>, Error>)
    ensures r.Err? <==> exists j :: 0 <= j < |es| && !es[j].value.Str?
    ensures r.Err? ==> r.error == UnsupportedTags
    ensures r.Ok? ==> |r.value| == |es| && forall j :: 0 <= j < |es| ==> es[j].value == Str(r.value[j])
    decreases |es|
  {
    if es == [] then Ok([])
    else
      var n := |es| - 1;
      assert forall j :: 0 <= j < n ==> es[..n][j] == es[j];
      match TagsOf(es[..n])
      case Err(e) => Err(e)
      case Ok(init) =>
        match ToString(es[n].value)
        case Some(s) => Ok(init + [s])
        case None => Err(UnsupportedTags)
  }

  /** A `tags` table {"a", "b"} gives the tags ["a", "b"]. */
  lemma StringTagsAreKept()
    ensures TagsOf([Entry(IntKey(1), Str("a")), Entry(IntKey(2), Str("b"))]) == Ok(["a", "b"])
  {
    var es := [Entry(IntKey(1), Str("a")), Entry(IntKey(2), Str("b"))];
    var first := es[..1];
    assert first == [Entry(IntKey(1), Str("a"))];
    assert first[..0] == [];
    var r1 := TagsOf(first);
    assert r1.Ok? && r1.value == ["a"];
    assert ToString(es[1].value) == Some("b");
    var r := TagsOf(es);
    assert r.Ok?;
    assert r.value == ["a", "b"];
  }

  // ---------------------------------------------------------------------
  // The host

  /** `registerHost`, as a function of the name and configuration table:
      the host it appends, or the error it raises. */
  function HostOf(name: string, config: seq<Entry>): (r: Result<Host, Error>)
    ensures r.Ok? ==> r.value.name == name
    ensures r.Ok? ==> forall e :: e in r.value.config <==> e in config && Exported(e.key)
    ensures r.Ok? ==> (r.value.hidden <==> Field(config, "hidden") == Bool(true))
    ensures r.Ok? ==> r.value.description == if Field(config, "description").Str? then Field(config, "description").s else ""
  {
    var hooks :- match ToLTable(Field(config, "hooks"))
                 case Some(tb) => HooksOf(tb)
                 case None => Ok(map[]);
    var tags :- match ToLTable(Field(config, "tags"))
                case Some(tb) => TagsOf(tb)
                case None => Ok([]);
    Ok(Host(name, ExportedConfig(config), hooks,
            ToString(Field(config, "description")).GetOr(""),
            ToBool(Field(config, "hidden")).GetOr(false),
            tags))
  }

  /** A host is built exactly when its hooks register and its tags are all
      strings; a bad hook is reported before bad tags, and a host without a
      `hooks` or `tags` table has no hooks or no tags. */
  lemma HostOutcome(name: string, config: seq<Entry>)
    ensures var hooks, tags := Field(config, "hooks"), Field(config, "tags");
      && (HostOf(name, config).Ok? <==>
           (hooks.Table? ==> HooksOf(hooks.entries).Ok?) && (tags.Table? ==> TagsOf(tags.entries).Ok?))
      && (hooks.Table? && HooksOf(hooks.entries).Err? ==> HostOf(name, config) == Err(HooksOf(hooks.entries).error))
      && ((hooks.Table? ==> HooksOf(hooks.entries).Ok?) && tags.Table? && TagsOf(tags.entries).Err? ==>
           HostOf(name, config) == Err(UnsupportedTags))
      && (HostOf(name, config).Ok? ==>
           (&& HostOf(name, config).value.hooks == (if hooks.Table? then HooksOf(hooks.entries).value else map[])
            && HostOf(name, config).value.tags == (if tags.Table? then TagsOf(tags.entries).value else [])))
  {
  }

  /** The loop of `registerHost` that copies the exported config entries. */
  method FilterConfig(config: seq<Entry>) returns (newConfig: seq<Entry>)
    ensures newConfig == ExportedConfig(config)
  {
    newConfig := [];
    for i := 0 to |config|
      invariant newConfig == ExportedConfig(config[..i])
    {
      assert config[..i + 1][..i] == config[..i];
      if Exported(config[i].key) {
        newConfig := newConfig + [config[i]];
      }
    }
    assert config[..|config|] == config;
  }

  /** The five hook registrations of `registerHost`, in order, stopping at
      the first error. */
  method RegisterHooks(hookTb: seq<Entry>) returns (r: Result<map<string, Hook>, Error>)
    ensures r == HooksOf(hookTb)
  {
    var hooks: map<string, Hook> := map[];
    var res := RegisterHook(hooks, "before", Field(hookTb, "before"));
    if res.Err? { return Err(res.error); }
    hooks := res.value;
    res := RegisterHook(hooks, "before_connect", Field(hookTb, "before_connect"));
    if res.Err? { return Err(res.error); }
    hooks := res.value;
    res := RegisterRemoteHook(hooks, "after_connect", Field(hookTb, "after_connect"));
    if res.Err? { return Err(res.error); }
    hooks := res.value;
    res := RegisterHook(hooks, "after", Field(hookTb, "after"));
    if res.Err? { return Err(res.error); }
    hooks := res.value;
    res := RegisterHook(hooks, "after_disconnect", Field(hookTb, "after_disconnect"));
    if res.Err? { return Err(res.error); }
    return Ok(res.value);
  }

  /** The `ForEach` over a `tags` table, failing at the first non-string. */
  method CollectTags(tagsTb: seq<Entry>) returns (r: Result<seq<string>, Error>)
    ensures r == TagsOf(tagsTb)
  {
    var tags: seq<string> := [];
    for i := 0 to |tagsTb|
      invariant TagsOf(tagsTb[..i]) == Ok(tags)
    {
      assert tagsTb[..i + 1][..i] == tagsTb[..i];
      match ToString(tagsTb[i].value) {
        case Some(vs) => tags := tags + [vs];
        case None => return Err(UnsupportedTags);
      }
    }
    assert tagsTb[..|tagsTb|] == tagsTb;
    return Ok(tags);
  }

  /** `registerHost`'s construction, step by step: the config filter, the
      hook registrations, description, hidden, and the tags. */
  method BuildHost(name: string, config: seq<Entry>) returns (r: Result<Host, Error>)
    ensures r == HostOf(name, config)
  {
    var newConfig := FilterConfig(config);
    var h := Host(name, newConfig, map[], "", false, []);

    match ToLTable(Field(config, "hooks")) {
      case Some(hookTb) =>
        var hooks :- RegisterHooks(hookTb);
        h := h.(hooks := hooks);
      case None =>
    }

    match ToString(Field(config, "description")) {
      case Some(d) => h := h.(description := d);
      case None =>
    }
    match ToBool(Field(config, "hidden")) {
      case Some(b) => h := h.(hidden := b);
      case None =>
    }

    match ToLTable(Field(config, "tags")) {
      case Some(tagsTb) =>
        var tags :- CollectTags(tagsTb);
        h := h.(tags := tags);
      case None =>
    }
    return Ok(h);
  }
}
