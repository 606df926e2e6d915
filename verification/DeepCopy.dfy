/** Connection information on the heap, its generated deep copies
    (apis/v1alpha2/zz_generated.deepcopy.go) and its conversion to the kubeconfig type
    (pkg/access/conversion.go). A Go slice is a nullable array; a struct is a record that
    shares the arrays it mentions when it is copied by assignment. */
module DeepCopy {

  newtype byte = x: int | 0 <= x < 256

  /** The reserved extension names, and any other. */
  datatype ExtensionName = ExecKey | AdditionalArgsKey | AdditionalEnvsKey | OtherName(text: string)

  datatype NamedExtension = NamedExtension(name: ExtensionName, raw: array?<byte>)

  datatype Cluster = Cluster(
    server: string, tlsServerName: string, insecureSkipTLSVerify: bool, caData: array?<byte>,
    proxyURL: string, disableCompression: bool, extensions: array?<NamedExtension>)

  datatype AccessProvider = AccessProvider(name: string, cluster: Cluster)

  // ----- contents -----

  /** The contents of a slice: a nil slice is not an empty one. */
  datatype Slice<+T> = Nil | Items(items: seq<T>)

  datatype ExtensionValue = ExtensionValue(name: ExtensionName, raw: Slice<byte>)

  datatype ClusterValue = ClusterValue(
    server: string, tlsServerName: string, insecureSkipTLSVerify: bool, caData: Slice<byte>,
    proxyURL: string, disableCompression: bool, extensions: Slice<ExtensionValue>)

  function Contents<T>(a: array?<T>): Slice<T>
    reads a
  {
    if a == null then Nil else Items(a[..])
  }

  function Buffer(a: array?<byte>): set<object> {
    if a == null then {} else {a}
  }

  function Buffers(exts: seq<NamedExtension>): set<object> {
    set e | e in exts && e.raw != null :: (e.raw as object)
  }

  /** Every mutable slice reachable from a cluster. */
  function Storage(c: Cluster): set<object>
    reads c.extensions
  {
    Buffer(c.caData) + if c.extensions == null then {} else {c.extensions} + Buffers(c.extensions[..])
  }

  function ExtensionView(e: NamedExtension): ExtensionValue
    reads e.raw
  {
    ExtensionValue(e.name, Contents(e.raw))
  }

  function ExtensionViews(exts: seq<NamedExtension>): (v: seq<ExtensionValue>)
    reads Buffers(exts)
    ensures |v| == |exts|
    ensures forall i :: 0 <= i < |exts| ==> v[i] == ExtensionView(exts[i])
  {
    if exts == [] then []
    else
      var last := exts[|exts| - 1];
      assert last in exts;
      ExtensionViews(exts[..|exts| - 1]) + [ExtensionView(last)]
  }

  function ListView(a: array?<NamedExtension>): Slice<ExtensionValue>
    reads a, if a == null then {} else Buffers(a[..])
  {
    if a == null then Nil else Items(ExtensionViews(a[..]))
  }

  function View(c: Cluster): ClusterValue
    reads c.extensions, Storage(c)
  {
    ClusterValue(
      c.server, c.tlsServerName, c.insecureSkipTLSVerify, Contents(c.caData), c.proxyURL, c.disableCompression,
      ListView(c.extensions))
  }

  /** No two extensions share a buffer. */
  predicate Separate(exts: seq<NamedExtension>) {
    forall i, j :: 0 <= i < j < |exts| && exts[i].raw != null ==> exts[i].raw != exts[j].raw
  }

  /** No two slices of the cluster share storage. */
  predicate OwnStorage(c: Cluster)
    reads c.extensions
  {
    c.extensions != null ==> Separate(c.extensions[..]) && Buffer(c.caData) !! Buffers(c.extensions[..])
  }

  // ----- deep copies -----

  method CopyBytes(a: array?<byte>) returns (out: array?<byte>)
    ensures Contents(out) == Contents(a)
    ensures out != null ==> fresh(out)
  {
    if a == null {
      return null;
    }
    var copy := new byte[a.Length];
    var i := 0;
    while i < a.Length
      invariant 0 <= i <= a.Length
      invariant copy[..i] == a[..i]
    {
      copy[i] := a[i];
      i := i + 1;
    }
    assert copy[..] == copy[..i] && a[..] == a[..i];
    out := copy;
  }

  method CopyExtension(e: NamedExtension) returns (out: NamedExtension)
    ensures ExtensionView(out) == ExtensionView(e)
    ensures out.raw != null ==> fresh(out.raw)
  {
    var raw := CopyBytes(e.raw);
    out := NamedExtension(e.name, raw);
  }

  method CopyExtensions(a: array?<NamedExtension>) returns (out: array?<NamedExtension>)
    ensures ListView(out) == old(ListView(a))
    ensures out != null ==> fresh(out) && fresh(Buffers(out[..])) && Separate(out[..])
  {
    if a == null {
      return null;
    }
    ghost var views := ExtensionViews(a[..]);
    var list := new NamedExtension[a.Length](i => NamedExtension(ExecKey, null));
    ghost var copies: seq<NamedExtension> := [];
    var i := 0;
    while i < a.Length
      invariant 0 <= i <= a.Length && |copies| == i
      invariant list[..i] == copies
      invariant forall k :: 0 <= k < i ==>
                Copied(copies[k], views[k]) && (copies[k].raw != null ==> fresh(copies[k].raw))
      invariant Separate(copies)
      modifies list
    {
      var copy := CopyExtension(a[i]);
      list[i] := copy;
      copies := copies + [copy];
      i := i + 1;
    }
    assert list[..] == copies;
    assert ExtensionViews(copies) == views;
    out := list;
  }

  /** The extension has this value. */
  predicate Copied(e: NamedExtension, v: ExtensionValue)
    reads e.raw
  {
    ExtensionView(e) == v
  }

  /** `Cluster.DeepCopyInto`: the same contents in storage of its own. */
  method CopyCluster(c: Cluster) returns (out: Cluster)
    ensures View(out) == old(View(c))
    ensures fresh(Storage(out)) && OwnStorage(out)
  {
    out := c;
    var exts := CopyExtensions(c.extensions);
    ghost var list := ListView(exts);
    var data := CopyBytes(c.caData);
    assert ListView(exts) == list;
    out := out.(caData := data, extensions := exts);
  }

  method CopyAccessProvider(p: AccessProvider) returns (out: AccessProvider)
    ensures out.name == p.name && View(out.cluster) == old(View(p.cluster))
    ensures fresh(Storage(out.cluster)) && OwnStorage(out.cluster)
  {
    var cluster := CopyCluster(p.cluster);
    out := AccessProvider(p.name, cluster);
  }

  // ----- a whole status -----

  datatype ProviderValue = ProviderValue(name: string, cluster: ClusterValue)

  /** Conditions and properties hold no slices; they are copied by value. */
  datatype StatusCondition = StatusCondition(kind: string, status: string, reason: string, message: string)
  datatype Property = Property(name: string, value: string, lastObservedTime: string)

  datatype Status = Status(
    conditions: array?<StatusCondition>, version: string, properties: array?<Property>,
        accessProviders: array?<AccessProvider>)

  function ExtensionLists(ps: seq<AccessProvider>): set<object> {
    set p | p in ps && p.cluster.extensions != null :: (p.cluster.extensions as object)
  }

  /** Every mutable slice reachable from the providers. */
  function ProvidersStorage(ps: seq<AccessProvider>): set<object>
    reads ExtensionLists(ps)
  {
    set p, o | p in ps && o in Storage(p.cluster) :: o
  }

  function ProviderView(p: AccessProvider): ProviderValue
    reads p.cluster.extensions, Storage(p.cluster)
  {
    ProviderValue(p.name, View(p.cluster))
  }

  function ProviderViews(ps: seq<AccessProvider>): (v: seq<ProviderValue>)
    reads ExtensionLists(ps), ProvidersStorage(ps)
    ensures |v| == |ps|
    ensures forall i :: 0 <= i < |ps| ==> v[i] == ProviderView(ps[i])
  {
    if ps == [] then []
    else
      var last := ps[|ps| - 1];
      assert last in ps;
      ProviderViews(ps[..|ps| - 1]) + [ProviderView(last)]
  }

  function ProviderListView(a: array?<AccessProvider>): Slice<ProviderValue>
    reads a, if a == null then {} else ExtensionLists(a[..]) + ProvidersStorage(a[..])
  {
    if a == null then Nil else Items(ProviderViews(a[..]))
  }

  /** No two slices reachable from the providers share storage. */
  predicate SeparateProviders(ps: seq<AccessProvider>)
    reads ExtensionLists(ps)
  {
    && (forall i, j :: 0 <= i < j < |ps| ==> Storage(ps[i].cluster) !! Storage(ps[j].cluster))
    && (forall i :: 0 <= i < |ps| ==> OwnStorage(ps[i].cluster))
  }

  /** The provider has this value, all of it stored in `used`. */
  predicate Holds(p: AccessProvider, v: ProviderValue, used: set<object>)
    reads used
  {
    && (p.cluster.extensions == null || p.cluster.extensions in used)
    && Storage(p.cluster) <= used
    && ProviderView(p) == v
  }

  /** The providers have these values, all of it stored in `used`. */
  predicate HoldAll(ps: seq<AccessProvider>, values: seq<ProviderValue>, used: set<object>)
    reads used
  {
    |ps| <= |values| && forall k :: 0 <= k < |ps| ==> Holds(ps[k], values[k], used)
  }

  predicate Apart(ps: seq<AccessProvider>, used: set<object>)
    requires forall k :: 0 <= k < |ps| ==> ps[k].cluster.extensions == null || ps[k].cluster.extensions in used
    reads used
  {
    && (forall i, j :: 0 <= i < j < |ps| ==> Storage(ps[i].cluster) !! Storage(ps[j].cluster))
    && (forall i :: 0 <= i < |ps| ==> OwnStorage(ps[i].cluster))
  }

  /** Copies so far: they have these values, in storage of their own. */
  predicate Kept(ps: seq<AccessProvider>, values: seq<ProviderValue>, used: set<object>)
    reads used
  {
    HoldAll(ps, values, used) && Apart(ps, used)
  }

  lemma HoldOneMore(ps: seq<AccessProvider>, values: seq<ProviderValue>, used: set<object>, p: AccessProvider,
          added: set<object>)
    requires Kept(ps, values, used) && |ps| < |values|
    requires Holds(p, values[|ps|], added) && used !! added && OwnStorage(p.cluster)
    ensures Kept(ps + [p], values, used + added)
  {
  }

  lemma HoldAllMeaning(ps: seq<AccessProvider>, values: seq<ProviderValue>, used: set<object>)
    requires Kept(ps, values, used) && |ps| == |values|
    ensures ProviderViews(ps) == values && ProvidersStorage(ps) <= used && SeparateProviders(ps)
  {
  }

  lemma ProvidersHeld(ps: seq<AccessProvider>)
    ensures HoldAll(ps, ProviderViews(ps), ExtensionLists(ps) + ProvidersStorage(ps))
  {
    forall k | 0 <= k < |ps| ensures Holds(ps[k], ProviderViews(ps)[k], ExtensionLists(ps) + ProvidersStorage(ps)) {
      assert ps[k] in ps;
    }
  }

  /** A copy of one provider and the storage it occupies. */
  method CopyOne(p: AccessProvider, ghost v: ProviderValue) returns (c: AccessProvider, ghost added: set<object>)
    requires v == ProviderView(p)
    ensures fresh(added) && Holds(c, v, added) && OwnStorage(c.cluster)
  {
    c := CopyAccessProvider(p);
    added := Storage(c.cluster);
  }

  /** Stores a copy, which leaves the copies' storage alone. */
  method PutCopy(out: array<AccessProvider>, i: nat, c: AccessProvider,
                 ghost list: seq<AccessProvider>, ghost values: seq<ProviderValue>, ghost used: set<object>)
    requires i < out.Length && out[..i] + [c] == list && out !in used && Kept(list, values, used)
    modifies out
    ensures out[..i + 1] == list && Kept(list, values, used)
  {
    out[i] := c;
  }

  /** Copies one provider into the next place of a list of copies. */
  method CopyNext(out: array<AccessProvider>, p: AccessProvider, i: nat,
                  ghost done: seq<AccessProvider>, ghost values: seq<ProviderValue>, ghost used: set<object>)
    returns (ghost copy: AccessProvider, ghost added: set<object>)
    requires i < out.Length && i < |values| && values[i] == ProviderView(p)
    requires |done| == i && out[..i] == done && out !in used
    requires Kept(done, values, used)
    modifies out
    ensures fresh(added) && out[..i + 1] == done + [copy]
    ensures Kept(done + [copy], values, used + added)
  {
    var c;
    c, added := CopyOne(p, values[i]);
    copy := c;
    assert Kept(done, values, used) && used !! added;
    HoldOneMore(done, values, used, c, added);
    PutCopy(out, i, c, done + [c], values, used + added);
  }

  /** Copies every provider of `a` into `out`; `used` is the storage of the copies. */
  method CopyAll(a: array<AccessProvider>, out: array<AccessProvider>, ghost values: seq<ProviderValue>,
          ghost storage: set<object>)
    returns (ghost used: set<object>)
    requires HoldAll(a[..], values, storage) && |values| == a.Length == out.Length
    requires out != a && out !in storage
    modifies out
    ensures fresh(used) && Kept(out[..], values, used)
  {
    ghost var source := a[..];
    ghost var done: seq<AccessProvider> := [];
    used := {};
    var i := 0;
    while i < a.Length
      invariant 0 <= i <= a.Length
      invariant a[..] == source && out[..i] == done
      invariant fresh(used) && out !in used
      invariant HoldAll(source, values, storage)
      invariant Kept(done, values, used)
    {
      assert a[i] == source[i] && Holds(source[i], values[i], storage);
      ghost var copy, added := CopyNext(out, a[i], i, done, values, used);
      done := done + [copy];
      used := used + added;
      i := i + 1;
    }
    assert out[..] == done;
  }

  /** A copy of the list with all its providers; `used` is the storage of the copies. */
  method CopyProviders(a: array<AccessProvider>, ghost values: seq<ProviderValue>, ghost storage: set<object>)
    returns (out: array<AccessProvider>, ghost used: set<object>)
    requires HoldAll(a[..], values, storage) && |values| == a.Length
    ensures fresh(out) && fresh(used) && out.Length == a.Length
    ensures Kept(out[..], values, used)
  {
    var blank := AccessProvider("", Cluster("", "", false, null, "", false, null));
    out := new AccessProvider[a.Length](i => blank);
    used := CopyAll(a, out, values, storage);
  }

  method CopyValues<T(0)>(a: array?<T>) returns (out: array?<T>)
    ensures Contents(out) == old(Contents(a))
    ensures out != null ==> fresh(out)
  {
    if a == null {
      return null;
    }
    var copy := new T[a.Length];
    var i := 0;
    while i < a.Length
      invariant 0 <= i <= a.Length
      invariant copy[..i] == a[..i]
    {
      copy[i] := a[i];
      i := i + 1;
    }
    assert copy[..] == copy[..i] && a[..] == a[..i];
    out := copy;
  }

  /** `ClusterProfileStatus.DeepCopyInto`: the same contents, for any number of providers and
      extensions, in storage of its own. */
  method CopyStatus(s: Status) returns (out: Status)
    ensures Contents(out.conditions) == old(Contents(s.conditions))
              && (out.conditions != null ==> fresh(out.conditions))
    ensures out.version == s.version
    ensures Contents(out.properties) == old(Contents(s.properties))
              && (out.properties != null ==> fresh(out.properties))
    ensures ProviderListView(out.accessProviders) == old(ProviderListView(s.accessProviders))
    ensures out.accessProviders != null ==>
              && fresh(out.accessProviders) && fresh(ProvidersStorage(out.accessProviders[..]))
              && SeparateProviders(out.accessProviders[..])
  {
    if s.accessProviders == null {
      var conditions, properties := CopyConditions(s);
      return Status(conditions, s.version, properties, null);
    }
    ghost var values := ProviderViews(s.accessProviders[..]);
    ghost var storage := ExtensionLists(s.accessProviders[..]) + ProvidersStorage(s.accessProviders[..]);
    ProvidersHeld(s.accessProviders[..]);
    var providers, used := CopyProviders(s.accessProviders, values, storage);
    ghost var copies := providers[..];
    var conditions, properties := CopyConditions(s);
    assert providers[..] == copies;
    HoldAllMeaning(copies, values, used);
    out := Status(conditions, s.version, properties, providers);
  }

  method CopyConditions(s: Status) returns (conditions: array?<StatusCondition>, properties: array?<Property>)
    ensures Contents(conditions) == old(Contents(s.conditions)) && (conditions != null ==> fresh(conditions))
    ensures Contents(properties) == old(Contents(s.properties)) && (properties != null ==> fresh(properties))
  {
    conditions := CopyValues(s.conditions);
    properties := CopyValues(s.properties);
  }

  // ----- the kubeconfig cluster -----

  datatype ClientcmdCluster = ClientcmdCluster(
    server: string, tlsServerName: string, insecureSkipTLSVerify: bool, certificateAuthority: string,
    caData: array?<byte>, proxyURL: string, disableCompression: bool, extensions: array?<NamedExtension>)
  {
    /** The same record as connection information: the CA file path has no counterpart. */
    function AsCluster(): Cluster {
      Cluster(server, tlsServerName, insecureSkipTLSVerify, caData, proxyURL, disableCompression, extensions)
    }
  }

  /** Appending to a nil slice yields nil when there is nothing to append. */
  function Appended(s: Slice<byte>): Slice<byte> {
    if s == Items([]) then Nil else s
  }

  /** `append([]byte(nil), a...)`. */
  method AppendBytes(a: array?<byte>) returns (out: array?<byte>)
    ensures Contents(out) == Appended(Contents(a))
    ensures out != null ==> fresh(out)
  {
    if a == null || a.Length == 0 {
      return null;
    }
    out := CopyBytes(a);
  }

  /** `ToClientcmdCluster`: every field, in storage of its own. An empty CA bundle becomes nil;
      extensions keep the difference between nil and empty. */
  method ToClientcmdCluster(c: Cluster) returns (out: ClientcmdCluster)
    ensures View(out.AsCluster()) == old(View(c)).(caData := Appended(old(View(c)).caData))
    ensures out.certificateAuthority == ""
    ensures fresh(Storage(out.AsCluster())) && OwnStorage(out.AsCluster())
  {
    var extensions := CopyExtensions(c.extensions);
    ghost var list := ListView(extensions);
    var data := AppendBytes(c.caData);
    assert ListView(extensions) == list;
    out := ClientcmdCluster(c.server, c.tlsServerName, c.insecureSkipTLSVerify, "", data,
                            c.proxyURL, c.disableCompression, extensions);
  }

  // ----- independence -----

  /** Writes a byte of a cluster's CA bundle where no two slices share storage. */
  method WriteBundle(c: Cluster, i: nat, b: byte)
    requires OwnStorage(c) && c.caData != null && i < c.caData.Length
    modifies c.caData
    ensures View(c) == old(View(c)).(caData := Items(old(c.caData[..])[i := b]))
  {
    ghost var exts := ListView(c.extensions);
    c.caData[i] := b;
    assert ListView(c.extensions) == exts;
  }

  /** Writing to the CA bundle on both sides of a copy: each keeps its own write and nothing else
      changes. */
  method CopyIsIndependent(c: Cluster, i: nat, theirs: byte, ours: byte) returns (copy: Cluster)
    requires c.caData != null && i < c.caData.Length
    modifies c.caData
    ensures View(copy) == old(View(c)).(caData := Items(old(c.caData[..])[i := ours]))
    ensures c.caData[..] == old(c.caData[..])[i := theirs]
  {
    copy := CopyCluster(c);
    ghost var before := View(copy);
    c.caData[i] := theirs;
    assert View(copy) == before && copy.caData[..] == old(c.caData[..]);
    WriteBundle(copy, i, ours);
  }

  lemma ViewsUpdated(list: seq<NamedExtension>, i: nat, e: NamedExtension)
    requires i < |list|
    ensures ExtensionViews(list[i := e]) == ExtensionViews(list)[i := ExtensionView(e)]
  {
  }

  /** A list that differs from these views in one place only has these views but for that place. */
  lemma ViewsDiffer(list: seq<NamedExtension>, views: seq<ExtensionValue>, i: nat)
    requires i < |list| == |views|
    requires forall j :: 0 <= j < |list| && j != i ==> ExtensionView(list[j]) == views[j]
    ensures ExtensionViews(list) == views[i := ExtensionView(list[i])]
  {
  }

  /** Writes an entry of a cluster's extension list. */
  method WriteEntry(c: Cluster, i: nat, e: NamedExtension)
    requires c.extensions != null && i < c.extensions.Length
    modifies c.extensions
    ensures View(c) == old(View(c)).(extensions := Items(old(ExtensionViews(c.extensions[..]))[i := ExtensionView(e)]))
  {
    ghost var list, views := c.extensions[..], ExtensionViews(c.extensions[..]);
    c.extensions[i] := e;
    assert c.extensions[..] == list[i := e] && ExtensionViews(list) == views;
    ViewsUpdated(list, i, e);
  }

  /** Writes a byte of an extension's data where no two slices share storage. */
  method WriteByte(c: Cluster, k: nat, i: nat, b: byte)
    requires OwnStorage(c) && c.extensions != null && k < c.extensions.Length
    requires c.extensions[k].raw != null && i < c.extensions[k].raw.Length
    modifies c.extensions[k].raw
    ensures var v := old(ExtensionViews(c.extensions[..]));
            View(c) == old(View(c)).(extensions := Items(v[k := v[k].(raw := Items(v[k].raw.items[i := b]))]))
  {
    ghost var list, views := c.extensions[..], ExtensionViews(c.extensions[..]);
    var buffer := c.extensions[k].raw;
    assert list[k] in list && buffer in Buffers(list);
    assert forall j :: 0 <= j < |list| && j != k ==> list[j].raw != buffer;
    buffer[i] := b;
    ViewsDiffer(list, views, k);
  }

  /** The same for an entry of the extension list. */
  method EntriesAreIndependent(c: Cluster, i: nat, theirs: NamedExtension, ours: NamedExtension) returns (copy: Cluster)
    requires c.extensions != null && i < c.extensions.Length
    modifies c.extensions
    ensures var v := old(ExtensionViews(c.extensions[..]));
            View(copy) == old(View(c)).(extensions := Items(v[i := ExtensionView(ours)]))
    ensures c.extensions[..] == old(c.extensions[..])[i := theirs]
  {
    copy := CopyCluster(c);
    ghost var before := View(copy);
    c.extensions[i] := theirs;
    assert View(copy) == before;
    WriteEntry(copy, i, ours);
  }

  /** A copy has the buffers of its original, each of them new. */
  method CopyWithBuffer(c: Cluster, k: nat, i: nat) returns (copy: Cluster)
    requires c.extensions != null && k < c.extensions.Length
    requires c.extensions[k].raw != null && i < c.extensions[k].raw.Length
    ensures View(copy) == old(View(c)) && OwnStorage(copy) && fresh(Storage(copy))
    ensures copy.extensions != null && k < copy.extensions.Length
    ensures copy.extensions[k].raw != null && fresh(copy.extensions[k].raw) && i < copy.extensions[k].raw.Length
  {
    ghost var views := ExtensionViews(c.extensions[..]);
    assert c.extensions[..][k] == c.extensions[k] && views[k].raw == Items(c.extensions[k].raw[..]);
    assert i < |c.extensions[k].raw[..]|;
    copy := CopyCluster(c);
    assert ListView(copy.extensions) == Items(views);
    ghost var list := copy.extensions[..];
    ghost var e := list[k];
    assert ExtensionView(e) == views[k] && Contents(e.raw) == views[k].raw && e in list;
    assert e.raw[..] == views[k].raw.items && i < |views[k].raw.items| == |e.raw[..]| == e.raw.Length;
    assert e.raw in Buffers(list);
    assert Buffers(list) <= Storage(copy);
  }

  /** The same for a byte of an extension's data. */
  method BuffersAreIndependent(c: Cluster, k: nat, i: nat, theirs: byte, ours: byte) returns (copy: Cluster)
    requires c.extensions != null && k < c.extensions.Length
    requires c.extensions[k].raw != null && i < c.extensions[k].raw.Length
    modifies c.extensions[k].raw
    ensures var v := old(ExtensionViews(c.extensions[..]));
            View(copy) == old(View(c)).(extensions := Items(v[k := v[k].(raw := Items(v[k].raw.items[i := ours]))]))
    ensures c.extensions[k].raw[..] == old(c.extensions[k].raw[..])[i := theirs]
  {
    copy := CopyWithBuffer(c, k, i);
    ghost var before, list := View(copy), copy.extensions[..];
    var buffer := copy.extensions[k].raw;
    c.extensions[k].raw[i] := theirs;
    assert View(copy) == before && copy.extensions[..] == list;
    WriteByte(copy, k, i, ours);
  }
}
