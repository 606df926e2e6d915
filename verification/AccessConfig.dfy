/** The access configuration builder (pkg/access/config.go): provider configurations are shared
    objects; every configuration is built on a copy. */
module AccessConfig {
  import opened Ordering
  import opened Wrappers
  import opened DeepCopy
  import opened AccessSpec
  import opened AccessTheorems

  /** The plugin configuration, with its data on the heap. */
  datatype PluginObject = PluginObject(origin: ConfigOrigin, data: array?<byte>)

  function ObjectView(o: PluginObject): PluginConfig
    reads o.data
  {
    PluginConfig(o.origin, Contents(o.data))
  }

  /** `clientcmdapi.ExecConfig`, reached through a pointer and changed in place. */
  class ExecConfig {
    var apiVersion: string
    var command: string
    var args: array?<string>
    var env: array?<EnvVar>
    var installHint: string
    var interactiveMode: string
    var provideClusterInfo: bool
    var config: PluginObject

    constructor (apiVersion: string, command: string, args: array?<string>, env: array?<EnvVar>, installHint: string,
                 interactiveMode: string, provideClusterInfo: bool, config: PluginObject)
      ensures this.args == args && this.env == env && this.config == config
      ensures ExecView(this) == ExecValue(apiVersion, command, Contents(args), Contents(env), installHint,
                                          interactiveMode, provideClusterInfo, ObjectView(config))
    {
      this.apiVersion, this.command, this.args, this.env := apiVersion, command, args, env;
      this.installHint, this.interactiveMode := installHint, interactiveMode;
      this.provideClusterInfo, this.config := provideClusterInfo, config;
    }
  }

  function ExecView(e: ExecConfig): ExecValue
    reads e, e.args, e.env, e.config.data
  {
    ExecValue(e.apiVersion, e.command, Contents(e.args), Contents(e.env), e.installHint, e.interactiveMode,
              e.provideClusterInfo, ObjectView(e.config))
  }

  function SliceStorage<T>(a: array?<T>): set<object> {
    if a == null then {} else {a}
  }

  /** The object and the slices it points to. */
  function ExecStorage(e: ExecConfig): set<object>
    reads e
  {
    {e} + SliceStorage(e.args) + SliceStorage(e.env) + Buffer(e.config.data)
  }

  datatype Provider = Provider(name: string, execConfig: ExecConfig?, argsPolicy: ArgsPolicy, envPolicy: EnvPolicy)

  /** `rest.Config`. The proxy function answers the parsed URL, or nothing for the empty text. */
  datatype RestConfig = RestConfig(
    host: string, disableCompression: bool, caData: array?<byte>, serverName: string, insecure: bool,
    proxyURL: string, exec: ExecConfig)

  function RestView(r: RestConfig): RestValue
    reads r.caData, r.exec, r.exec.args, r.exec.env, r.exec.config.data
  {
    RestValue(r.host, r.disableCompression, Contents(r.caData), r.serverName, r.insecure, r.proxyURL, ExecView(r.exec))
  }

  function RestStorage(r: RestConfig): set<object>
    reads r.exec
  {
    Buffer(r.caData) + ExecStorage(r.exec)
  }

  // ----- copying -----

  method CopyObject(o: PluginObject) returns (out: PluginObject)
    ensures ObjectView(out) == old(ObjectView(o)) && fresh(Buffer(out.data))
  {
    var data := CopyBytes(o.data);
    out := PluginObject(o.origin, data);
  }

  /** `ExecConfig.DeepCopy`. */
  method CopyExec(e: ExecConfig) returns (out: ExecConfig)
    ensures ExecView(out) == old(ExecView(e)) && fresh(ExecStorage(out))
  {
    var args := CopyValues(e.args);
    var env := CopyValues(e.env);
    var config := CopyObject(e.config);
    out := new ExecConfig(e.apiVersion, e.command, args, env, e.installHint, e.interactiveMode, e.provideClusterInfo,
        config);
  }

  method ToArray<T(0)>(s: seq<T>) returns (out: array<T>)
    ensures fresh(out) && out[..] == s
  {
    out := new T[|s|];
    for i := 0 to |s|
      invariant out[..i] == s[..i]
    {
      out[i] := s[i];
    }
    assert out[..] == out[..|s|] && s == s[..|s|];
  }

  // ----- the extensions -----

  /** `processClusterProfileSourcedCLIArgData`: appends to a copy's arguments. */
  method ProcessArgs(d: Decoder, exec: ExecConfig, data: seq<byte>, policy: ArgsPolicy)
    returns (err: Option<AccessError>)
    modifies exec`args
    ensures var merged := MergeArgs(d, old(Contents(exec.args)), data, policy);
            && (err.None? <==> merged.Ok?)
            && (err.None? ==> Contents(exec.args) == merged.value)
            && (err.Some? ==> merged == Err(err.value) && exec.args == old(exec.args))
    ensures exec.args == old(exec.args) || (exec.args != null ==> fresh(exec.args))
  {
    match policy {
      case ArgsUnset | ArgsIgnore =>
        err := None;
      case ArgsOther(text) =>
        err := Some(UnsupportedArgsPolicy(text));
      case ArgsAppend =>
        match d.args(data) {
          case MalformedArgs(e) =>
            err := Some(BadArgs(e));
          case Args(more) =>
            if |more| > 0 {
              var own := if exec.args == null then [] else exec.args[..];
              exec.args := ToArray(own + more);
            }
            err := None;
        }
    }
  }

  /** How far a step of the extension loop came: done, stopped by an error, or panicking. */
  datatype Progress = Done | Stopped(error: AccessError) | Crashed

  /** What a step that came so far answers, its result being this plugin call. */
  function Reached(p: Progress, e: ExecValue): Result<ExecValue> {
    match p case Done => Ok(e) case Stopped(error) => Err(error) case Crashed => Panic
  }

  /** `processClusterProfileSourcedEnvVarData`: merges the mapping with the copy's variables and
      writes them back in order of name, whatever order the map is iterated in. */
  method ProcessEnv(d: Decoder, exec: ExecConfig, data: seq<byte>, policy: EnvPolicy) returns (out: Progress)
    modifies exec`env
    ensures match MergeEnv(d, old(Contents(exec.env)), data, policy)
            case Ok(env) => out == Done && Contents(exec.env) == env
            case Err(e) => out == Stopped(e) && exec.env == old(exec.env)
            case Panic => out == Crashed
    ensures exec.env == old(exec.env) || (exec.env != null ==> fresh(exec.env))
  {
    match policy {
      case EnvUnset | EnvIgnore =>
        return Done;
      case EnvOther(text) =>
        return Stopped(UnsupportedEnvPolicy(text));
      case EnvAppendIfNotExists | EnvReplace =>
    }
    var decoded := d.env(data);
    var own := if exec.env == null then [] else exec.env[..];
    match decoded {
      case MalformedEnv(e) =>
        return Stopped(BadEnv(e));
      case NilMapping =>
        if own != [] {
          return Crashed;
        }
        exec.env := ToArray([]);
        return Done;
      case Mapping(m) =>
        var vars := MergeVars(m, own, policy.EnvReplace?);
        var list := ListVars(vars);
        exec.env := ToArray(list);
        return Done;
    }
  }

  method MergeVars(m: map<string, string>, own: seq<EnvVar>, keep: bool) returns (vars: map<string, string>)
    ensures vars == if keep then Underlay(m, own) else Overlay(m, own)
  {
    vars := m;
    for i := 0 to |own|
      invariant vars == if keep then Underlay(m, own[..i]) else Overlay(m, own[..i])
    {
      assert own[..i + 1][..i] == own[..i];
      if !keep || own[i].name !in vars {
        vars := vars[own[i].name := own[i].value];
      }
    }
    assert own[..|own|] == own;
  }

  /** Collects the pairs of a map in any order and sorts them by name. */
  method ListVars(vars: map<string, string>) returns (list: seq<EnvVar>)
    ensures list == EnvList(vars)
  {
    var collected: seq<EnvVar> := [];
    var left := vars.Keys;
    while left != {}
      invariant left <= vars.Keys
      invariant DistinctVars(collected)
      invariant forall v :: v in collected ==> v.name in vars && v.name !in left && vars[v.name] == v.value
      invariant forall name :: name in vars && name !in left ==> EnvVar(name, vars[name]) in collected
      decreases left
    {
      var name :| name in left;
      var v := EnvVar(name, vars[name]);
      assert forall k :: 0 <= k < |collected| ==> collected[k] in collected;
      collected := collected + [v];
      left := left - {name};
    }
    ByEnvNameOrder();
    list := SortFunc(collected, ByEnvName);
    SortedListing(collected, list, vars);
    CanonicalUnique(list, EnvList(vars), vars);
  }

  // ----- choosing the provider -----

  predicate Known(m: map<string, AccessProvider>, latest: map<string, ProviderValue>, used: set<object>)
    reads used
  {
    m.Keys == latest.Keys && forall name :: name in m ==> Holds(m[name], latest[name], used)
  }

  method Remember(m: map<string, AccessProvider>, p: AccessProvider, ghost v: ProviderValue,
                  ghost latest: map<string, ProviderValue>, ghost used: set<object>)
    returns (out: map<string, AccessProvider>, ghost added: set<object>)
    requires Known(m, latest, used) && v == ProviderView(p)
    ensures fresh(added) && Known(out, latest[v.name := v], used + added)
  {
    var copy := CopyAccessProvider(p);
    added := Storage(copy.cluster);
    out := m[p.name := copy];
    assert Holds(copy, v, used + added);
    assert Known(m, latest, used);
    forall name | name in m && name != p.name ensures Holds(out[name], latest[name], used + added) {
      assert Holds(m[name], latest[name], used);
    }
    assert out.Keys == latest[p.name := v].Keys;
  }

  /** Indexes deep copies of the offered providers by name. */
  method Index(offered: seq<AccessProvider>, ghost values: seq<ProviderValue>, ghost storage: set<object>)
    returns (m: map<string, AccessProvider>, ghost used: set<object>)
    requires HoldAll(offered, values, storage) && |values| == |offered|
    ensures fresh(used) && Known(m, Latest(values), used)
  {
    m, used := map[], {};
    for i := 0 to |offered|
      invariant fresh(used) && Known(m, Latest(values[..i]), used)
      invariant HoldAll(offered, values, storage)
    {
      assert Holds(offered[i], values[i], storage);
      assert values[..i + 1][..i] == values[..i];
      ghost var added;
      m, added := Remember(m, offered[i], values[i], Latest(values[..i]), used);
      used := used + added;
    }
    assert values[..|offered|] == values;
  }

  function ProviderNames(ps: seq<Provider>): (names: seq<string>)
    ensures |names| == |ps| && forall i :: 0 <= i < |ps| ==> names[i] == ps[i].name
  {
    seq(|ps|, i requires 0 <= i < |ps| => ps[i].name)
  }

  /** The first provider of this name. */
  function Named(ps: seq<Provider>, name: string): (p: Option<Provider>)
    ensures p.Some? ==> p.value in ps && p.value.name == name
  {
    if ps == [] then None else if ps[0].name == name then Some(ps[0]) else Named(ps[1..], name)
  }

  // ----- building -----

  datatype BuildOutcome = Built(config: RestConfig) | Refused(error: AccessError) | Panicked

  /** The mutable storage of what was built. */
  function StorageOf(out: BuildOutcome): set<object>
    reads match out case Built(c) => {c.exec} case _ => {}
  {
    match out case Built(c) => RestStorage(c) case _ => {}
  }

  /** The value, error or panic of an outcome. */
  function Observed(out: BuildOutcome): Result<RestValue>
    reads StorageOf(out)
  {
    match out case Built(c) => Ok(RestView(c)) case Refused(e) => Err(e) case Panicked => Panic
  }

  /** The step of the extension loop at an additional-args extension, whose data are these. */
  method ArgsStep(d: Decoder, exec: ExecConfig, data: seq<byte>, ap: ArgsPolicy, ghost x: ExtensionValue,
                  ghost ep: EnvPolicy)
    returns (progress: Progress, ghost added: set<object>)
    requires x.name == AdditionalArgsKey && data == Data(x.raw)
    modifies exec`args
    ensures Reached(progress, ExecView(exec)) == ApplyExtension(d, old(ExecView(exec)), x, ap, ep)
    ensures fresh(added) && ExecStorage(exec) <= old(ExecStorage(exec)) + added
  {
    var err := ProcessArgs(d, exec, data, ap);
    progress := if err.Some? then Stopped(err.value) else Done;
    added := if exec.args == old(exec.args) then {} else SliceStorage(exec.args);
    assert ExecView(exec) == old(ExecView(exec)).(args := Contents(exec.args));
  }

  lemma EnvApplied(d: Decoder, e: ExecValue, x: ExtensionValue, ap: ArgsPolicy, ep: EnvPolicy, p: Progress,
                   env: Slice<EnvVar>)
    requires x.name == AdditionalEnvsKey
    requires match MergeEnv(d, e.env, Data(x.raw), ep)
             case Ok(merged) => p == Done && env == merged
             case Err(error) => p == Stopped(error)
             case Panic => p == Crashed
    ensures Reached(p, e.(env := env)) == ApplyExtension(d, e, x, ap, ep)
  {
  }

  /** The step of the extension loop at an additional-envs extension, whose data are these. */
  method EnvStep(d: Decoder, exec: ExecConfig, data: seq<byte>, ep: EnvPolicy, ghost x: ExtensionValue,
                 ghost ap: ArgsPolicy)
    returns (progress: Progress, ghost added: set<object>)
    requires x.name == AdditionalEnvsKey && data == Data(x.raw)
    modifies exec`env
    ensures Reached(progress, ExecView(exec)) == ApplyExtension(d, old(ExecView(exec)), x, ap, ep)
    ensures fresh(added) && ExecStorage(exec) <= old(ExecStorage(exec)) + added
  {
    ghost var before := ExecView(exec);
    progress := ProcessEnv(d, exec, data, ep);
    added := if exec.env == old(exec.env) then {} else SliceStorage(exec.env);
    assert ExecView(exec) == before.(env := Contents(exec.env));
    EnvApplied(d, before, x, ap, ep, progress, Contents(exec.env));
  }

  /** One step of the extension loop: the two reserved extensions change the copy. */
  method ProcessExtension(d: Decoder, exec: ExecConfig, e: NamedExtension, ap: ArgsPolicy, ep: EnvPolicy)
    returns (progress: Progress, ghost added: set<object>)
    modifies exec`args, exec`env
    ensures Reached(progress, ExecView(exec)) == ApplyExtension(d, old(ExecView(exec)), old(ExtensionView(e)), ap, ep)
    ensures fresh(added) && ExecStorage(exec) <= old(ExecStorage(exec)) + added
  {
    var data := if e.raw == null then [] else e.raw[..];
    ghost var x := ExtensionView(e);
    match e.name {
      case AdditionalArgsKey =>
        progress, added := ArgsStep(d, exec, data, ap, x, ep);
      case AdditionalEnvsKey =>
        progress, added := EnvStep(d, exec, data, ep, x, ap);
      case _ =>
        progress, added := Done, {};
    }
  }

  /** What is left of the fold over the provider's extensions when `i` of them are done. */
  ghost function Left(d: Decoder, r: Result<ExecValue>, v: ProviderValue, i: nat, ap: ArgsPolicy, ep: EnvPolicy)
    : Result<ExecValue>
  {
    if i <= |Data(v.cluster.extensions)| then Continue(d, r, Data(v.cluster.extensions)[i..], ap, ep) else r
  }

  /** The step for the chosen access provider's i-th extension; its storage is `used`. */
  method ProcessNext(d: Decoder, exec: ExecConfig, p: AccessProvider, i: nat, ap: ArgsPolicy, ep: EnvPolicy,
                     ghost v: ProviderValue, ghost used: set<object>)
    returns (progress: Progress, ghost added: set<object>)
    requires Holds(p, v, used) && exec !in used && p.cluster.extensions != null && i < p.cluster.extensions.Length
    modifies exec`args, exec`env
    ensures Holds(p, v, used)
    ensures Left(d, Reached(progress, ExecView(exec)), v, i + 1, ap, ep) ==
            Left(d, Ok(old(ExecView(exec))), v, i, ap, ep)
    ensures fresh(added) && ExecStorage(exec) <= old(ExecStorage(exec)) + added
  {
    var list := p.cluster.extensions;
    assert ExtensionView(list[..][i]) == Data(v.cluster.extensions)[i];
    ApplyAllNext(d, ExecView(exec), Data(v.cluster.extensions), i, ap, ep);
    progress, added := ProcessExtension(d, exec, list[i], ap, ep);
  }

  lemma AllLeft(d: Decoder, e: ExecValue, v: ProviderValue, ap: ArgsPolicy, ep: EnvPolicy)
    ensures Left(d, Ok(e), v, 0, ap, ep) == ApplyAll(d, e, Data(v.cluster.extensions), ap, ep)
  {
    assert Data(v.cluster.extensions)[0..] == Data(v.cluster.extensions);
  }

  lemma NothingLeft(d: Decoder, p: AccessProvider, v: ProviderValue, used: set<object>, r: Result<ExecValue>,
                    i: nat, ap: ArgsPolicy, ep: EnvPolicy)
    requires Holds(p, v, used)
    requires !r.Ok? || i == if p.cluster.extensions == null then 0 else p.cluster.extensions.Length
    ensures Left(d, r, v, i, ap, ep) == r
  {
    assert i == |Data(v.cluster.extensions)| ==> Data(v.cluster.extensions)[i..] == [];
  }

  /** The extension loop over the chosen access provider, whose storage is `used`. */
  method ProcessExtensions(d: Decoder, exec: ExecConfig, p: AccessProvider, ap: ArgsPolicy, ep: EnvPolicy,
                           ghost v: ProviderValue, ghost used: set<object>)
    returns (progress: Progress, ghost added: set<object>)
    requires Holds(p, v, used) && exec !in used
    modifies exec`args, exec`env
    ensures Reached(progress, ExecView(exec)) == Left(d, Ok(old(ExecView(exec))), v, 0, ap, ep)
    ensures fresh(added) && ExecStorage(exec) <= old(ExecStorage(exec)) + added
  {
    var n := if p.cluster.extensions == null then 0 else p.cluster.extensions.Length;
    progress, added := Done, {};
    for i := 0 to n
      invariant Holds(p, v, used) && progress == Done
      invariant Left(d, Ok(ExecView(exec)), v, i, ap, ep) == Left(d, Ok(old(ExecView(exec))), v, 0, ap, ep)
      invariant fresh(added) && ExecStorage(exec) <= old(ExecStorage(exec)) + added
    {
      ghost var more;
      progress, more := ProcessNext(d, exec, p, i, ap, ep, v, used);
      added := added + more;
      if progress != Done {
        NothingLeft(d, p, v, used, Reached(progress, ExecView(exec)), i + 1, ap, ep);
        return;
      }
    }
    NothingLeft(d, p, v, used, Ok(ExecView(exec)), n, ap, ep);
  }

  /** The map of objects stands for the map of their data, in buffers of these extensions. */
  predicate Represents(m: map<ExtensionName, array?<byte>>, data: map<ExtensionName, Slice<byte>>,
                       exts: seq<NamedExtension>)
    reads Buffers(exts)
  {
    && m.Keys == data.Keys
    && forall name :: name in m ==> (m[name] == null || m[name] in Buffers(exts)) && Contents(m[name]) == data[name]
  }

  /** The first `i` extensions are converted to this map. */
  ghost predicate Converted(exts: seq<NamedExtension>, i: nat, m: map<ExtensionName, array?<byte>>,
                            data: map<ExtensionName, Slice<byte>>)
    reads Buffers(exts)
  {
    i <= |exts| && Convert(ExtensionViews(exts)[..i]) == Some(data) && Represents(m, data, exts)
  }

  lemma RepresentsNext(m: map<ExtensionName, array?<byte>>, data: map<ExtensionName, Slice<byte>>,
                       exts: seq<NamedExtension>, e: NamedExtension)
    requires Represents(m, data, exts) && e in exts
    ensures Represents(m[e.name := Stored(e)], data[e.name := ObjectOf(Contents(e.raw))], exts)
  {
  }

  /** One more extension: it is stored, or it is what makes the conversion fail. */
  lemma ConvertedNext(exts: seq<NamedExtension>, i: nat, m: map<ExtensionName, array?<byte>>,
                      data: map<ExtensionName, Slice<byte>>)
    requires i < |exts| && Converted(exts, i, m, data)
    ensures var e := exts[i];
            if e.name in m && m[e.name] != null then Convert(ExtensionViews(exts)[..i + 1]).None?
            else Converted(exts, i + 1, m[e.name := Stored(e)], data[e.name := ObjectOf(Contents(e.raw))])
  {
    var views, e := ExtensionViews(exts), exts[i];
    assert e in exts && views[i] == ExtensionView(e);
    ConvertNext(views, i);
    RepresentsNext(m, data, exts, e);
  }

  lemma ConvertedAll(exts: seq<NamedExtension>, m: map<ExtensionName, array?<byte>>,
                     data: map<ExtensionName, Slice<byte>>)
    requires Converted(exts, |exts|, m, data)
    ensures Convert(ExtensionViews(exts)) == Some(data) && Represents(m, data, exts)
  {
    assert ExtensionViews(exts)[..|exts|] == ExtensionViews(exts);
  }

  /** The buffer an extension's object is in, if it has an object. */
  function Stored(e: NamedExtension): array?<byte>
    reads Buffer(e.raw)
  {
    if IsNull(Contents(e.raw)) then null else e.raw
  }

  /** The kubeconfig library's conversion of the extension list to a map of objects: an extension
      with null data gives no object, and only a name that has an object cannot be given again. */
  method ConvertExtensions(exts: seq<NamedExtension>) returns (ok: bool, m: map<ExtensionName, array?<byte>>)
    ensures match Convert(ExtensionViews(exts))
            case None => !ok
            case Some(data) => ok && Represents(m, data, exts)
  {
    ghost var data: map<ExtensionName, Slice<byte>> := map[];
    m := map[];
    for i := 0 to |exts|
      invariant Converted(exts, i, m, data)
    {
      var e := exts[i];
      ConvertedNext(exts, i, m, data);
      if e.name in m && m[e.name] != null {
        ConvertStops(ExtensionViews(exts), i + 1);
        return false, m;
      }
      m, data := m[e.name := Stored(e)], data[e.name := ObjectOf(Contents(e.raw))];
    }
    ConvertedAll(exts, m, data);
    ok := true;
  }

  /** The extensions of the chosen provider as the conversion gets them, in new storage. */
  method CopiedExtensions(p: AccessProvider, ghost v: ProviderValue, ghost used: set<object>)
    returns (exts: seq<NamedExtension>, ghost made: set<object>)
    requires Holds(p, v, used)
    ensures ExtensionViews(exts) == Data(v.cluster.extensions) && Buffers(exts) <= made && fresh(made)
  {
    var cluster := ToClientcmdCluster(p.cluster);
    made := Storage(cluster.AsCluster());
    exts := if cluster.extensions == null then [] else cluster.extensions[..];
    assert ListView(cluster.extensions) == v.cluster.extensions;
  }

  /** The reserved extension's object, in a buffer of the extensions. */
  method ReservedExtension(exts: seq<NamedExtension>) returns (ok: bool, found: bool, data: array?<byte>)
    ensures match Convert(ExtensionViews(exts))
            case None => !ok
            case Some(m) => ok && (found <==> ExecKey in m) && (found ==> Contents(data) == m[ExecKey])
    ensures Buffer(data) <= Buffers(exts)
  {
    var extensions;
    ok, extensions := ConvertExtensions(exts);
    found, data := false, null;
    if ok && ExecKey in extensions {
      found, data := true, extensions[ExecKey];
    }
  }

  /** The plugin configuration: the reserved extension's object if the profile has the extension. */
  method PluginConfigFor(config: PluginObject, p: AccessProvider, ghost v: ProviderValue, ghost used: set<object>)
    returns (out: Option<PluginObject>, ghost made: set<object>)
    requires Holds(p, v, used)
    ensures match Convert(Data(v.cluster.extensions))
            case None => out.None?
            case Some(m) => out.Some? && ObjectView(out.value) == PluginConfigWith(ObjectView(config), m)
    ensures fresh(made) && (out.Some? ==> Buffer(out.value.data) <= Buffer(config.data) + made)
  {
    var exts;
    exts, made := CopiedExtensions(p, v, used);
    var ok, found, data := ReservedExtension(exts);
    out := if !ok then None
           else if !found then Some(config)
           else if data == null then Some(PluginObject(NoOrigin, null))
           else Some(PluginObject(FromExtension, data));
  }

  /** The client configuration: the plugin call takes over the processed copy's slices. */
  method Finish(exec: ExecConfig, p: AccessProvider, ghost v: ProviderValue, ghost used: set<object>)
    returns (out: BuildOutcome, ghost made: set<object>)
    requires Holds(p, v, used)
    ensures Observed(out) == Completed(v.cluster, ExecView(exec))
    ensures fresh(made) && StorageOf(out) <= used + ExecStorage(exec) + made
  {
    ghost var start := ExecView(exec);
    var config;
    config, made := PluginConfigFor(exec.config, p, v, used);
    if config.None? {
      out := Refused(DuplicateExtension);
      return;
    }
    ghost var data := ObjectView(config.value);
    var plugin := new ExecConfig(exec.apiVersion, exec.command, exec.args, exec.env, "", "Never",
        exec.provideClusterInfo, config.value);
    assert ObjectView(config.value) == data && ExecView(exec) == start;
    assert ExecView(plugin) == Plugin(start, Convert(Data(v.cluster.extensions)).value);
    assert Holds(p, v, used);
    out := Built(RestConfig(p.cluster.server, p.cluster.disableCompression, p.cluster.caData, p.cluster.tlsServerName,
                            p.cluster.insecureSkipTLSVerify, p.cluster.proxyURL, plugin));
    made := made + {plugin};
  }

  /** A copy of the provider's plugin call with the extensions folded into it, stored in `made`. */
  method Prepare(d: Decoder, shared: ExecConfig, ap: ArgsPolicy, ep: EnvPolicy, p: AccessProvider,
                 ghost v: ProviderValue, ghost used: set<object>)
    returns (exec: ExecConfig, progress: Progress, ghost made: set<object>)
    requires Holds(p, v, used)
    ensures Reached(progress, ExecView(exec)) == ApplyAll(d, ExecView(shared), Data(v.cluster.extensions), ap, ep)
    ensures fresh(made) && ExecStorage(exec) <= made
  {
    ghost var start := ExecView(shared);
    exec := CopyExec(shared);
    made := ExecStorage(exec);
    assert exec !in used && ExecView(exec) == start;
    AllLeft(d, start, v, ap, ep);
    ghost var added;
    progress, added := ProcessExtensions(d, exec, p, ap, ep, v, used);
    made := made + added;
    assert ExecView(shared) == start;
  }

  /** The outcome for a processed plugin call. */
  method Conclude(progress: Progress, exec: ExecConfig, p: AccessProvider,
                  ghost v: ProviderValue, ghost used: set<object>)
    returns (out: BuildOutcome, ghost made: set<object>)
    requires Holds(p, v, used)
    ensures Observed(out) == Concluded(v.cluster, Reached(progress, ExecView(exec)))
    ensures fresh(made) && StorageOf(out) <= used + ExecStorage(exec) + made
  {
    made := {};
    match progress {
      case Stopped(error) =>
        out := Refused(error);
      case Crashed =>
        out := Panicked;
      case Done =>
        ghost var start := ExecView(exec);
        out, made := Finish(exec, p, v, used);
        assert ExecView(exec) == start;
    }
  }

  /** The configuration for a chosen provider, stored in the chosen provider's storage and in
      new objects. */
  method Connect(d: Decoder, shared: ExecConfig, ap: ArgsPolicy, ep: EnvPolicy, p: AccessProvider,
                 ghost v: ProviderValue, ghost used: set<object>)
    returns (out: BuildOutcome, ghost made: set<object>)
    requires Holds(p, v, used)
    ensures Observed(out) == BuildFor(d, ExecView(shared), ap, ep, v.cluster)
    ensures fresh(made) && StorageOf(out) <= used + made
  {
    ghost var goal := BuildFor(d, ExecView(shared), ap, ep, v.cluster);
    var exec, progress;
    exec, progress, made := Prepare(d, shared, ap, ep, p, v, used);
    assert goal == Concluded(v.cluster, Reached(progress, ExecView(exec)));
    ghost var more;
    out, more := Conclude(progress, exec, p, v, used);
    made := made + more;
  }

  /** The heap a provider's plugin call occupies. */
  function PluginStorage(p: Option<Provider>): set<object>
    reads match p case Some(Provider(_, e, _, _)) => (if e == null then {} else {e}) case None => {}
  {
    match p
    case Some(Provider(_, e, _, _)) => if e == null then {} else ExecStorage(e)
    case None => {}
  }

  /** What building answers for the offered access providers. */
  ghost function Answer(d: Decoder, profile: string, ps: seq<Provider>, offers: seq<ProviderValue>): Result<RestValue>
    reads match Choice(ProviderNames(ps), Latest(offers))
          case Some(v) => PluginStorage(Named(ps, v.name))
          case None => {}
  {
    match Choice(ProviderNames(ps), Latest(offers))
    case None => Err(NoAccessor(profile))
    case Some(v) =>
      match Named(ps, v.name)
      case None => Err(NoExecConfig(v.name))
      case Some(Provider(_, e, ap, ep)) =>
        if e == null then Err(NoExecConfig(v.name)) else BuildFor(d, ExecView(e), ap, ep, v.cluster)
  }

  /** The answer does not depend on the order of access providers with distinct names. */
  lemma OfferOrderAnswer(d: Decoder, profile: string, ps: seq<Provider>, a: seq<ProviderValue>, b: seq<ProviderValue>)
    requires multiset(a) == multiset(b) && forall i, j :: 0 <= i < j < |a| ==> a[i].name != a[j].name
    ensures Answer(d, profile, ps, a) == Answer(d, profile, ps, b)
  {
    OfferOrderIrrelevant(a, b);
  }

  /** When the chosen access provider's repeated extensions come to nothing, an answer that is a
      configuration does not depend on the order of any access provider's extensions. */
  lemma ReorderedAnswer(d: Decoder, profile: string, ps: seq<Provider>, a: seq<ProviderValue>, b: seq<ProviderValue>)
    requires AllReordered(a, b) && Answer(d, profile, ps, a).Ok?
    requires RepeatsNothing(d, Data(Choice(ProviderNames(ps), Latest(a)).value.cluster.extensions))
    ensures Answer(d, profile, ps, b) == Answer(d, profile, ps, a)
  {
    LatestReordered(a, b);
    ChoiceReordered(ProviderNames(ps), Latest(a), Latest(b));
    var u := Choice(ProviderNames(ps), Latest(a)).value;
    var v := Choice(ProviderNames(ps), Latest(b)).value;
    var p := Named(ps, u.name).value;
    if u.cluster.extensions.Items? {
      ReorderedBuild(d, ExecView(p.execConfig), p.argsPolicy, p.envPolicy, u.cluster, v.cluster.extensions.items);
    }
  }

  /** An answer that is a configuration is independent of the order of the access providers'
      extensions exactly when the chosen one repeats no name with data other than null. */
  lemma ExtensionOrderAnswer(d: Decoder, profile: string, ps: seq<Provider>, a: seq<ProviderValue>)
    requires NullsAreNothing(d) && Answer(d, profile, ps, a).Ok?
    ensures RepeatsNull(Data(Choice(ProviderNames(ps), Latest(a)).value.cluster.extensions)) <==>
            forall b :: AllReordered(a, b) ==> Answer(d, profile, ps, b) == Answer(d, profile, ps, a)
  {
    var u := Choice(ProviderNames(ps), Latest(a)).value;
    if RepeatsNull(Data(u.cluster.extensions)) {
      forall b | AllReordered(a, b) ensures Answer(d, profile, ps, b) == Answer(d, profile, ps, a) {
        ReorderedAnswer(d, profile, ps, a, b);
      }
    } else {
      var b := RefusedAnswer(d, profile, ps, a);
    }
  }

  /** An answer that is a configuration: the chosen access provider's extensions convert. */
  lemma AnswerConverts(d: Decoder, profile: string, ps: seq<Provider>, offers: seq<ProviderValue>)
    requires Answer(d, profile, ps, offers).Ok?
    ensures Choice(ProviderNames(ps), Latest(offers)).Some?
    ensures Convert(Data(Choice(ProviderNames(ps), Latest(offers)).value.cluster.extensions)).Some?
  {
  }

  lemma RefusedAnswer(d: Decoder, profile: string, ps: seq<Provider>, a: seq<ProviderValue>)
    returns (b: seq<ProviderValue>)
    requires Answer(d, profile, ps, a).Ok?
    requires !RepeatsNull(Data(Choice(ProviderNames(ps), Latest(a)).value.cluster.extensions))
    ensures AllReordered(a, b) && !Answer(d, profile, ps, b).Ok?
  {
    AnswerConverts(d, profile, ps, a);
    var u := Choice(ProviderNames(ps), Latest(a)).value;
    ConvertMeaning(Data(u.cluster.extensions));
    var swapped := RefusedOrder(Data(u.cluster.extensions));
    var v := u.(cluster := u.cluster.(extensions := Items(swapped)));
    b := ReorderChosen(ProviderNames(ps), a, v);
    if Answer(d, profile, ps, b).Ok? {
      AnswerConverts(d, profile, ps, b);
    }
  }

  /** The configured providers, in order of preference. */
  class Config {
    var providers: seq<Provider>

    constructor (providers: seq<Provider>)
      ensures this.providers == providers
    {
      this.providers := providers;
    }

    /** `getExecConfigAndFlagsFromConfig`. */
    method GetExecConfig(name: string) returns (exec: ExecConfig?, ap: ArgsPolicy, ep: EnvPolicy)
      ensures match Named(providers, name)
              case Some(p) => exec == p.execConfig && ap == p.argsPolicy && ep == p.envPolicy
              case None => exec == null && ap == ArgsIgnore && ep == EnvIgnore
    {
      for i := 0 to |providers|
        invariant Named(providers, name) == Named(providers[i..], name)
      {
        assert providers[i..][1..] == providers[i + 1..];
        if providers[i].name == name {
          return providers[i].execConfig, providers[i].argsPolicy, providers[i].envPolicy;
        }
      }
      return null, ArgsIgnore, EnvIgnore;
    }

    /** `getClusterAccessorFromClusterProfile`: a copy of the chosen access provider. */
    method GetClusterAccessor(offered: seq<AccessProvider>, ghost values: seq<ProviderValue>,
            ghost storage: set<object>)
      returns (chosen: Option<AccessProvider>, ghost used: set<object>)
      requires HoldAll(offered, values, storage) && |values| == |offered|
      ensures fresh(used)
      ensures match Choice(ProviderNames(providers), Latest(values))
              case Some(v) => chosen.Some? && Holds(chosen.value, v, used)
              case None => chosen.None?
    {
      var byName;
      byName, used := Index(offered, values, storage);
      ghost var names := ProviderNames(providers);
      for i := 0 to |providers|
        invariant Choice(names, Latest(values)) == Choice(names[i..], Latest(values))
        invariant Known(byName, Latest(values), used)
      {
        assert names[i..][1..] == names[i + 1..];
        if providers[i].name in byName {
          return Some(byName[providers[i].name]), used;
        }
      }
      chosen := None;
    }

    method Build(d: Decoder, profile: string, offered: seq<AccessProvider>, ghost values: seq<ProviderValue>,
            ghost storage: set<object>)
      returns (out: BuildOutcome, ghost made: set<object>)
      requires HoldAll(offered, values, storage) && |values| == |offered|
      ensures Answer(d, profile, providers, values) == old(Answer(d, profile, providers, values))
      ensures Observed(out) == old(Answer(d, profile, providers, values))
      ensures fresh(made) && StorageOf(out) <= made
    {
      assert forall p :: p in providers && p.execConfig != null ==> allocated(p.execConfig);
      var chosen, used := GetClusterAccessor(offered, values, storage);
      made := used;
      if chosen.None? {
        out := Refused(NoAccessor(profile));
        return;
      }
      ghost var v := Choice(ProviderNames(providers), Latest(values)).value;
      assert Holds(chosen.value, v, used);
      var exec, ap, ep := GetExecConfig(chosen.value.name);
      if exec == null {
        out := Refused(NoExecConfig(chosen.value.name));
        return;
      }
      ghost var more;
      out, more := Connect(d, exec, ap, ep, chosen.value, v, used);
      made := made + more;
    }

    /** `BuildConfigFromCP`: nothing is modified, so neither the configured providers nor the
        profile change; whatever is built is stored apart from both. */
    method BuildConfigFromCP(d: Decoder, profile: string, status: Status) returns (out: BuildOutcome)
      ensures Observed(out) == old(Answer(d, profile, providers, Data(ProviderListView(status.accessProviders))))
      ensures fresh(StorageOf(out))
    {
      var offered := if status.accessProviders == null then [] else status.accessProviders[..];
      ProvidersHeld(offered);
      ghost var values, storage := ProviderViews(offered), ExtensionLists(offered) + ProvidersStorage(offered);
      ghost var made;
      out, made := Build(d, profile, offered, values, storage);
    }

    /** A configuration built again from what is still the same is the same, in other storage. */
    method BuildAgain(d: Decoder, profile: string, offered: seq<AccessProvider>, ghost values: seq<ProviderValue>,
                      ghost storage: set<object>, ghost first: BuildOutcome)
      returns (again: BuildOutcome)
      requires HoldAll(offered, values, storage) && |values| == |offered|
      requires Observed(first) == Answer(d, profile, providers, values)
      ensures Observed(again) == old(Observed(first)) && fresh(StorageOf(again))
    {
      ghost var made;
      again, made := Build(d, profile, offered, values, storage);
    }
  }
}
