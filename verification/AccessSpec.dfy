/** What building a client configuration computes (pkg/access/config.go), on values. */
module AccessSpec {
  import opened Ordering
  import opened DeepCopy
  import opened Wrappers

  datatype ArgsPolicy = ArgsUnset | ArgsAppend | ArgsIgnore | ArgsOther(text: string)
  datatype EnvPolicy = EnvUnset | EnvAppendIfNotExists | EnvReplace | EnvIgnore | EnvOther(text: string)

  datatype EnvVar = EnvVar(name: string, value: string)

  /** The plugin configuration object: none, the provider's, or the profile's reserved extension. */
  datatype ConfigOrigin = NoOrigin | FromProvider | FromExtension
  datatype PluginConfig = PluginConfig(origin: ConfigOrigin, data: Slice<byte>)

  datatype ExecValue = ExecValue(
    apiVersion: string, command: string, args: Slice<string>, env: Slice<EnvVar>, installHint: string,
    interactiveMode: string, provideClusterInfo: bool, config: PluginConfig)

  datatype AccessError =
    | NoAccessor(profile: string) | NoExecConfig(provider: string) | BadArgs(error: string) | BadEnv(error: string)
    | UnsupportedArgsPolicy(text: string) | UnsupportedEnvPolicy(text: string) | DuplicateExtension

  /** What decoding an extension yields. Decoding into a map succeeds with a nil map when the
      data is empty or null. */
  datatype DecodedArgs = Args(items: seq<string>) | MalformedArgs(error: string)
  datatype DecodedEnv = Mapping(vars: map<string, string>) | NilMapping | MalformedEnv(error: string)
  datatype Decoder = Decoder(args: seq<byte> -> DecodedArgs, env: seq<byte> -> DecodedEnv)

  /** An operation's result, an error it returns, or the panic of a write to a nil map. */
  datatype Result<+T> = Ok(value: T) | Err(error: AccessError) | Panic

  function Data<T>(s: Slice<T>): seq<T> {
    if s.Nil? then [] else s.items
  }

  // ----- arguments -----

  function AppendSlice<T>(s: Slice<T>, more: seq<T>): Slice<T> {
    if more == [] then s else Items(Data(s) + more)
  }

  function MergeArgs(d: Decoder, args: Slice<string>, raw: seq<byte>, policy: ArgsPolicy): Result<Slice<string>> {
    match policy
    case ArgsUnset | ArgsIgnore => Ok(args)
    case ArgsOther(text) => Err(UnsupportedArgsPolicy(text))
    case ArgsAppend =>
      match d.args(raw)
      case MalformedArgs(e) => Err(BadArgs(e))
      case Args(more) => Ok(AppendSlice(args, more))
  }

  // ----- environment -----

  /** The provider's variables written over the mapping, in list order. */
  function Overlay(m: map<string, string>, env: seq<EnvVar>): map<string, string> {
    if env == [] then m
    else
      var last := env[|env| - 1];
      Overlay(m, env[..|env| - 1])[last.name := last.value]
  }

  /** The provider's variables written where the mapping has no such name yet, in list order. */
  function Underlay(m: map<string, string>, env: seq<EnvVar>): map<string, string> {
    if env == [] then m
    else
      var last := env[|env| - 1];
      var u := Underlay(m, env[..|env| - 1]);
      if last.name in u then u else u[last.name := last.value]
  }

  predicate ByEnvName(a: EnvVar, b: EnvVar) {
    StrLe(a.name, b.name)
  }

  lemma ByEnvNameOrder()
    ensures TotalPreorder(ByEnvName)
  {
    StrLeTotalPreorder();
  }

  ghost predicate DistinctVars(l: seq<EnvVar>) {
    forall i, j :: 0 <= i < j < |l| ==> l[i].name != l[j].name
  }

  /** The list holds exactly the pairs of the mapping. */
  ghost predicate ListsMapping(l: seq<EnvVar>, m: map<string, string>) {
    && DistinctVars(l)
    && (forall v :: v in l ==> v.name in m && m[v.name] == v.value)
    && (forall name :: name in m ==> EnvVar(name, m[name]) in l)
  }

  /** The canonical list of a mapping: its pairs in increasing order of name. */
  ghost predicate CanonicalList(l: seq<EnvVar>, m: map<string, string>) {
    ListsMapping(l, m) && SortedBy(ByEnvName, l)
  }

  lemma SortedListing(l: seq<EnvVar>, sorted: seq<EnvVar>, m: map<string, string>)
    requires ListsMapping(l, m) && SortOf(ByEnvName, sorted, l)
    ensures CanonicalList(sorted, m)
  {
    SameElements(sorted, l);
    NoDuplicatesPermutation(l, sorted);
    forall i, j | 0 <= i < j < |sorted| ensures sorted[i].name != sorted[j].name {
      assert sorted[i] in sorted && sorted[j] in sorted;
    }
  }

  /** A mapping has one canonical list, however its pairs were collected. */
  lemma CanonicalUnique(a: seq<EnvVar>, b: seq<EnvVar>, m: map<string, string>)
    requires CanonicalList(a, m) && CanonicalList(b, m)
    ensures a == b
  {
    NoDuplicatesMultiset(a);
    NoDuplicatesMultiset(b);
    assert (set v | v in a) == (set v | v in b);
    forall x, y | x in a && y in a && ByEnvName(x, y) && ByEnvName(y, x) ensures x == y {
      StrLeAntisymmetric(x.name, y.name);
    }
    SortUnique(ByEnvName, a, b);
  }

  lemma {:induction false} CanonicalExists(m: map<string, string>) returns (l: seq<EnvVar>)
    ensures CanonicalList(l, m)
    decreases m.Keys
  {
    if m == map[] {
      l := [];
    } else {
      var name :| name in m;
      var rest := CanonicalExists(m - {name});
      var v := EnvVar(name, m[name]);
      ByEnvNameOrder();
      SortedIsSort(ByEnvName, [v] + rest);
      l := Sorted(ByEnvName, [v] + rest);
      ListsOneMore(rest, name, m);
      SortedListing([v] + rest, l, m);
    }
  }

  lemma ListsOneMore(rest: seq<EnvVar>, name: string, m: map<string, string>)
    requires name in m && ListsMapping(rest, m - {name})
    ensures ListsMapping([EnvVar(name, m[name])] + rest, m)
  {
    var l := [EnvVar(name, m[name])] + rest;
    forall i, j | 0 <= i < j < |l| ensures l[i].name != l[j].name {
      assert l[j] == rest[j - 1] && rest[j - 1] in rest;
      if i > 0 {
        assert l[i] == rest[i - 1];
      }
    }
    forall v | v in l ensures v.name in m && m[v.name] == v.value {
      assert v == l[0] || v in rest;
    }
    forall x | x in m ensures EnvVar(x, m[x]) in l {
      if x != name {
        assert EnvVar(x, (m - {name})[x]) in rest;
      }
    }
  }

  ghost function EnvList(m: map<string, string>): (l: seq<EnvVar>)
    ensures CanonicalList(l, m)
  {
    assert exists l :: CanonicalList(l, m) by {
      var l := CanonicalExists(m);
    }
    var l :| CanonicalList(l, m);
    l
  }

  /** Merging the extension's mapping into the provider's list. */
  ghost function MergeEnv(d: Decoder, env: Slice<EnvVar>, raw: seq<byte>, policy: EnvPolicy): Result<Slice<EnvVar>> {
    match policy
    case EnvUnset | EnvIgnore => Ok(env)
    case EnvOther(text) => Err(UnsupportedEnvPolicy(text))
    case EnvAppendIfNotExists | EnvReplace =>
      match d.env(raw)
      case MalformedEnv(e) => Err(BadEnv(e))
      case NilMapping => if Data(env) == [] then Ok(Items([])) else Panic
      case Mapping(m) =>
        Ok(Items(EnvList(if policy.EnvReplace? then Underlay(m, Data(env)) else Overlay(m, Data(env)))))
  }

  // ----- extensions -----

  ghost function ApplyExtension(d: Decoder, exec: ExecValue, ext: ExtensionValue, ap: ArgsPolicy,
          ep: EnvPolicy): Result<ExecValue> {
    match ext.name
    case AdditionalArgsKey =>
      (match MergeArgs(d, exec.args, Data(ext.raw), ap)
       case Ok(args) => Ok(exec.(args := args))
       case Err(e) => Err(e)
       case Panic => Panic)
    case AdditionalEnvsKey =>
      (match MergeEnv(d, exec.env, Data(ext.raw), ep)
       case Ok(env) => Ok(exec.(env := env))
       case Err(e) => Err(e)
       case Panic => Panic)
    case _ => Ok(exec)
  }

  ghost function ApplyAll(d: Decoder, exec: ExecValue, exts: seq<ExtensionValue>, ap: ArgsPolicy,
          ep: EnvPolicy): Result<ExecValue>
    decreases |exts|
  {
    if exts == [] then Ok(exec)
    else
      match ApplyExtension(d, exec, exts[0], ap, ep)
      case Ok(next) => ApplyAll(d, next, exts[1..], ap, ep)
      case Err(e) => Err(e)
      case Panic => Panic
  }

  predicate DistinctExtensions(exts: seq<ExtensionValue>) {
    forall i, j :: 0 <= i < j < |exts| ==> exts[i].name != exts[j].name
  }

  // ----- the conversion of extensions -----

  /** The text `null`. */
  const NULL_TEXT: seq<byte> := [110, 117, 108, 108]

  predicate IsNull(raw: Slice<byte>) {
    Data(raw) == [] || Data(raw) == NULL_TEXT
  }

  /** The object an extension's data stand for: null data are no object. */
  function ObjectOf(raw: Slice<byte>): Slice<byte> {
    if IsNull(raw) then Nil else raw
  }

  /** The kubeconfig library's conversion of the extension list to a map: a name that already has
      an object is refused, one that has none takes the next. */
  function Convert(exts: seq<ExtensionValue>): Option<map<ExtensionName, Slice<byte>>> {
    if exts == [] then Some(map[])
    else
      var last := exts[|exts| - 1];
      match Convert(exts[..|exts| - 1])
      case None => None
      case Some(m) => if last.name in m && m[last.name] != Nil then None else Some(m[last.name := ObjectOf(last.raw)])
  }

  // ----- the configuration -----

  datatype RestValue = RestValue(
    host: string, disableCompression: bool, caData: Slice<byte>, serverName: string, insecure: bool,
    proxyURL: string, exec: ExecValue)

  /** Access through a provider's plugin to the cluster an access provider describes. */
  ghost function BuildFor(d: Decoder, exec: ExecValue, ap: ArgsPolicy, ep: EnvPolicy,
          c: ClusterValue): Result<RestValue> {
    Concluded(c, ApplyAll(d, exec, Data(c.extensions), ap, ep))
  }

  /** The end of a build whose plugin call has been processed, refused or has panicked. */
  function Concluded(c: ClusterValue, r: Result<ExecValue>): Result<RestValue> {
    match r
    case Err(e) => Err(e)
    case Panic => Panic
    case Ok(e) => Completed(c, e)
  }

  /** A processed plugin call turned into a configuration, if the extensions can be converted. */
  function Completed(c: ClusterValue, e: ExecValue): Result<RestValue> {
    match Convert(Data(c.extensions))
    case None => Err(DuplicateExtension)
    case Some(m) => Ok(Connection(c, Plugin(e, m)))
  }

  function Connection(c: ClusterValue, plugin: ExecValue): RestValue {
    RestValue(c.server, c.disableCompression, c.caData, c.tlsServerName, c.insecureSkipTLSVerify, c.proxyURL, plugin)
  }

  /** The reserved extension's object if there is such an extension, else what was configured. */
  function PluginConfigWith(config: PluginConfig, m: map<ExtensionName, Slice<byte>>): PluginConfig {
    if ExecKey !in m then config
    else if m[ExecKey] == Nil then PluginConfig(NoOrigin, Nil)
    else PluginConfig(FromExtension, m[ExecKey])
  }

  /** The plugin call: never interactive, configured by the reserved extension if there is one. */
  function Plugin(e: ExecValue, m: map<ExtensionName, Slice<byte>>): ExecValue {
    ExecValue(e.apiVersion, e.command, e.args, e.env, "", "Never", e.provideClusterInfo, PluginConfigWith(e.config, m))
  }

  // ----- choosing the provider -----

  /** The offered access providers by name: of several with one name the last. */
  function Latest(offers: seq<ProviderValue>): map<string, ProviderValue> {
    if offers == [] then map[]
    else
      var last := offers[|offers| - 1];
      Latest(offers[..|offers| - 1])[last.name := last]
  }

  /** The first configured provider that is offered. */
  function Choice(names: seq<string>, offers: map<string, ProviderValue>): Option<ProviderValue> {
    if names == [] then None
    else if names[0] in offers then Some(offers[names[0]])
    else Choice(names[1..], offers)
  }
}
