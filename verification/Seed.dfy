/** The sample-inventory seeder (hack/conformance-seed/main.go). Names follow section 2.1 of
    RFC 1123; label values are bounded by the 63 octets of section 2.3.4 of RFC 1035. */
module Seed {
  import opened ConformanceTypes
  import opened Wrappers
  import opened Checks
  import opened Ordering
  import Text

  // ----- derived names -----

  predicate LowerAlnum(c: char) {
    'a' <= c <= 'z' || '0' <= c <= '9'
  }

  /** `unicode.ToLower`, as far as it can yield a letter, digit or hyphen of ASCII: two letters
      outside ASCII, the Kelvin sign and the dotted capital I, have ASCII lower cases. */
  function ToLower(c: char): char {
    if 'A' <= c <= 'Z' then (c as int + 32) as char
    else if c == '\U{212A}' then 'k'
    else if c == '\U{0130}' then 'i'
    else c
  }

  function SafeChar(c: char): (r: char)
    ensures LowerAlnum(r) || r == '-'
  {
    if LowerAlnum(c) || c == '-' then c else '-'
  }

  function SafeText(s: string): (r: string)
    ensures |r| == |s| && forall i :: 0 <= i < |r| ==> LowerAlnum(r[i]) || r[i] == '-'
  {
    seq(|s|, i requires 0 <= i < |s| => SafeChar(ToLower(s[i])))
  }

  function TrimHyphens(s: string): (r: string)
    requires forall i :: 0 <= i < |s| ==> LowerAlnum(s[i]) || s[i] == '-'
    ensures |r| <= |s| && forall i :: 0 <= i < |r| ==> LowerAlnum(r[i]) || r[i] == '-'
    ensures r != "" ==> r[0] != '-' && r[|r| - 1] != '-'
  {
    if s == "" then ""
    else if s[0] == '-' then TrimHyphens(s[1..])
    else if s[|s| - 1] == '-' then TrimHyphens(s[..|s| - 1])
    else s
  }

  const MAX_PREFIX := 40

  /** A host-name label: lower-case letters, digits and hyphens, no hyphen at either end. */
  predicate HostLabel(s: string) {
    && s != "" && s[0] != '-' && s[|s| - 1] != '-'
    && forall i :: 0 <= i < |s| ==> LowerAlnum(s[i]) || s[i] == '-'
  }

  function ObjectNamePrefix(manager: string): (r: string)
    ensures HostLabel(r) && |r| <= MAX_PREFIX
  {
    var mapped := SafeText(manager);
    var bounded := if |mapped| > MAX_PREFIX then mapped[..MAX_PREFIX] else mapped;
    var prefix := TrimHyphens(bounded);
    if prefix == "" then "cluster-manager" else prefix
  }

  function ObjectName(manager: string, index: nat): string {
    ObjectNamePrefix(manager) + "-cluster-" + Text.Decimal(index)
  }

  function MemberID(name: string): string {
    name + "-id"
  }

  predicate LabelChar(c: char) {
    LowerAlnum(c) || 'A' <= c <= 'Z' || c == '-' || c == '_' || c == '.'
  }

  /** A valid label value: at most 63 characters, alphanumeric at both ends. */
  predicate LabelValue(s: string) {
    s == "" || (&& |s| <= 63
                && (forall i :: 0 <= i < |s| ==> LabelChar(s[i]))
                && s[0] !in {'-', '_', '.'} && s[|s| - 1] !in {'-', '_', '.'})
  }

  lemma ObjectNameShape(manager: string, index: nat)
    ensures HostLabel(ObjectName(manager, index))
    ensures |ObjectName(manager, index)| == |ObjectNamePrefix(manager)| + 9 + |Text.Decimal(index)|
  {
    var p, d := ObjectNamePrefix(manager), Text.Decimal(index);
    var name := ObjectName(manager, index);
    assert forall i :: 0 <= i < |d| ==> d[i] in d;
    assert name[|name| - 1] == d[|d| - 1];
  }

  /** The member ID is a valid label value exactly when prefix and index leave it room: the
      index may have eleven digits whatever the manager is called, and no more when the prefix
      is as long as it can be. */
  lemma MemberIDFits(manager: string, index: nat)
    ensures LabelValue(MemberID(ObjectName(manager, index)))
            <==> |ObjectNamePrefix(manager)| + |Text.Decimal(index)| <= 51
    ensures index < Text.Pow10(11) ==> LabelValue(MemberID(ObjectName(manager, index)))
    ensures |ObjectNamePrefix(manager)| == MAX_PREFIX ==>
              (LabelValue(MemberID(ObjectName(manager, index))) <==> index < Text.Pow10(11))
  {
    ObjectNameShape(manager, index);
    Text.DecimalLength(index, 11);
    var name := ObjectName(manager, index);
    var id := MemberID(name);
    assert id[0] == name[0] && id[|id| - 1] == 'd';
    assert |id| == |ObjectNamePrefix(manager)| + |Text.Decimal(index)| + 12;
    forall i | 0 <= i < |id| ensures LabelChar(id[i]) {
      if i < |name| { assert id[i] == name[i]; }
    }
  }

  /** Different indexes give different names, hence different member IDs. */
  lemma NamesDistinct(manager: string, i: nat, j: nat)
    ensures ObjectName(manager, i) == ObjectName(manager, j) <==> i == j
    ensures MemberID(ObjectName(manager, i)) == MemberID(ObjectName(manager, j)) <==> i == j
  {
    var p := ObjectNamePrefix(manager) + "-cluster-";
    var a, b := ObjectName(manager, i), ObjectName(manager, j);
    assert a[|p|..] == Text.Decimal(i) && b[|p|..] == Text.Decimal(j);
    assert MemberID(a)[..|MemberID(a)| - 3] == a && MemberID(b)[..|MemberID(b)| - 3] == b;
    if a == b {
      Text.DecimalInjective(i, j);
    }
  }

  // ----- the API server, for the ClusterProfiles of one namespace -----

  datatype Store = Store(objects: map<string, ClusterProfile>, writes: nat)
  datatype APIFailure = AlreadyExists | Invalid | NotFound
  datatype SeedError =
    | NegativeCount | NotSeeded(name: string, cause: APIFailure) | OtherManager(name: string, owner: string)

  /** What the server checks of a profile: its name, its label values, and that the manager
      name is a non-empty label value. */
  predicate Admissible(p: ClusterProfile) {
    && HostLabel(p.name) && |p.name| <= 253
    && (forall k :: k in p.labels ==> LabelValue(p.labels[k]))
    && p.manager != "" && LabelValue(p.manager)
  }

  /** The stored form of a new profile: the server sets its namespace, UID and version, and drops
      the status. */
  function Stored(p: ClusterProfile, namespace: string, writes: nat): ClusterProfile {
    p.(namespace := namespace, uid := Text.Decimal(writes), resourceVersion := Text.Decimal(writes),
       conditions := [], kubernetesVersion := "")
  }

  class Server {
    const namespace: string
    var store: Store

    constructor (namespace: string, store: Store)
      ensures this.namespace == namespace && this.store == store
    {
      this.namespace := namespace;
      this.store := store;
    }

    method Create(p: ClusterProfile) returns (created: Option<ClusterProfile>, err: Option<APIFailure>)
      modifies this
      ensures err == (if !Admissible(p) then Some(Invalid)
                      else if p.name in old(store).objects then Some(AlreadyExists)
                      else None)
      ensures err.Some? ==> store == old(store)
      ensures err.None? ==> created == Some(Stored(p, namespace, old(store).writes))
                            && store == Store(old(store).objects[p.name := created.value], old(store).writes + 1)
    {
      if !Admissible(p) {
        return None, Some(Invalid);
      }
      if p.name in store.objects {
        return None, Some(AlreadyExists);
      }
      var profile := Stored(p, namespace, store.writes);
      store := Store(store.objects[p.name := profile], store.writes + 1);
      return Some(profile), None;
    }

    method Get(name: string) returns (found: Option<ClusterProfile>)
      ensures found == if name in store.objects then Some(store.objects[name]) else None
    {
      found := if name in store.objects then Some(store.objects[name]) else None;
    }

    method UpdateStatus(p: ClusterProfile) returns (err: Option<APIFailure>)
      modifies this
      ensures err == if p.name in old(store).objects then None else Some(NotFound)
      ensures store == if p.name in old(store).objects then StatusWritten(old(store), p) else old(store)
    {
      if p.name !in store.objects {
        return Some(NotFound);
      }
      store := StatusWritten(store, p);
      err := None;
    }
  }

  /** The status of the stored profile is replaced; nothing else of it is. */
  function StatusWritten(s: Store, p: ClusterProfile): Store
    requires p.name in s.objects
  {
    var profile := s.objects[p.name].(conditions := p.conditions, kubernetesVersion := p.kubernetesVersion,
                                     resourceVersion := Text.Decimal(s.writes));
    Store(s.objects[p.name := profile], s.writes + 1)
  }

  // ----- seeding -----

  /** `meta.SetStatusCondition`: replaces the condition of this type or adds it. */
  function SetCondition(conditions: seq<Condition>, c: Condition): seq<Condition> {
    if conditions == [] then [c]
    else if conditions[0].kind == c.kind then [c] + conditions[1..]
    else [conditions[0]] + SetCondition(conditions[1..], c)
  }

  const HEALTHY := Condition(HealthyCondition, "True", "AsExpected", "control plane is healthy")
  const JOINED := Condition(JoinedCondition, "True", "ClusterRegistered", "cluster is under management")

  function NewProfile(manager: string, index: nat): ClusterProfile {
    var name := ObjectName(manager, index);
    ClusterProfile("", name, "", "", map[ManagerKey := manager, MemberIDKey := MemberID(name)], manager, [], "")
  }

  function WithStatus(p: ClusterProfile): ClusterProfile {
    p.(kubernetesVersion := "v1.35.0", conditions := SetCondition(SetCondition(p.conditions, HEALTHY), JOINED))
  }

  function NotSeededBecause(name: string, failure: Option<APIFailure>): Option<SeedError> {
    match failure
    case None => None
    case Some(cause) => Some(NotSeeded(name, cause))
  }

  /** Objects are stored under their own names. */
  predicate Keyed(s: Store) {
    forall name :: name in s.objects ==> s.objects[name].name == name
  }

  /** What one seeding step does to the store. */
  function SeedOne(s: Store, namespace: string, manager: string, index: nat): (r: (Store, Option<SeedError>))
    requires Keyed(s)
    ensures Keyed(r.0)
  {
    var p := NewProfile(manager, index);
    if !Admissible(p) then (s, Some(NotSeeded(p.name, Invalid)))
    else if p.name !in s.objects then
      var created := Stored(p, namespace, s.writes);
      (StatusWritten(Store(s.objects[p.name := created], s.writes + 1), WithStatus(created)), None)
    else if s.objects[p.name].manager != manager then (s, Some(OtherManager(p.name, s.objects[p.name].manager)))
    else (StatusWritten(s, WithStatus(s.objects[p.name])), None)
  }

  method SeedClusterProfile(server: Server, manager: string, index: nat) returns (err: Option<SeedError>)
    requires Keyed(server.store)
    modifies server
    ensures (server.store, err) == SeedOne(old(server.store), server.namespace, manager, index)
  {
    var wanted := NewProfile(manager, index);
    var name := wanted.name;
    var created, failure := server.Create(wanted);
    if failure == Some(AlreadyExists) {
      created := server.Get(name);
      failure := if created.None? then Some(NotFound) else None;
      if created.Some? && created.value.manager != manager {
        return Some(OtherManager(name, created.value.manager));
      }
    }
    err := NotSeededBecause(name, failure);
    if err.Some? {
      return;
    }
    var profile := created.value;
    profile := profile.(kubernetesVersion := "v1.35.0");
    profile := profile.(conditions := SetCondition(profile.conditions, HEALTHY));
    profile := profile.(conditions := SetCondition(profile.conditions, JOINED));
    var updated := server.UpdateStatus(profile);
    err := NotSeededBecause(name, updated);
  }

  /** The store after the first `n` steps, or after the step that failed. */
  function SeedMany(s: Store, namespace: string, manager: string, n: nat): (r: (Store, Option<SeedError>))
    requires Keyed(s)
    ensures Keyed(r.0)
  {
    if n == 0 then (s, None)
    else
      var (before, err) := SeedMany(s, namespace, manager, n - 1);
      if err.Some? then (before, err) else SeedOne(before, namespace, manager, n)
  }

  method Run(server: Server, manager: string, clusters: int) returns (err: Option<SeedError>)
    requires Keyed(server.store)
    modifies server
    ensures clusters < 0 ==> err == Some(NegativeCount) && server.store == old(server.store)
    ensures clusters >= 0 ==> (server.store, err) == SeedMany(old(server.store), server.namespace, manager, clusters)
  {
    if clusters < 0 {
      return Some(NegativeCount);
    }
    var i := 1;
    while i <= clusters
      invariant 1 <= i <= clusters + 1
      invariant (server.store, None) == SeedMany(old(server.store), server.namespace, manager, i - 1)
      invariant Keyed(server.store)
    {
      err := SeedClusterProfile(server, manager, i);
      if err.Some? {
        SeedStops(old(server.store), server.namespace, manager, i, clusters);
        return;
      }
      i := i + 1;
    }
    err := None;
  }

  lemma {:induction false} SeedStops(s: Store, namespace: string, manager: string, i: nat, n: nat)
    requires Keyed(s) && i <= n && SeedMany(s, namespace, manager, i).1.Some?
    ensures SeedMany(s, namespace, manager, n) == SeedMany(s, namespace, manager, i)
  {
    if i < n {
      SeedStops(s, namespace, manager, i, n - 1);
      assert SeedMany(s, namespace, manager, n - 1).1.Some?;
    }
  }

  // ----- what is seeded -----

  /** A seeded profile: identified, labelled and reporting everything the suite looks for. */
  predicate Seeded(p: ClusterProfile, namespace: string, manager: string, index: nat) {
    && p.namespace == namespace && p.name == ObjectName(manager, index) && p.uid != "" && p.resourceVersion != ""
    && p.manager == manager && p.labels == map[ManagerKey := manager, MemberIDKey := MemberID(p.name)]
    && p.conditions == [HEALTHY, JOINED] && p.kubernetesVersion == "v1.35.0"
  }

  /** The store holds exactly the first `n` seeded objects. */
  ghost predicate HoldsSeeds(s: Store, namespace: string, manager: string, n: nat) {
    && (forall i :: 1 <= i <= n ==>
        ObjectName(manager, i) in s.objects && Seeded(s.objects[ObjectName(manager, i)], namespace, manager, i))
    && (forall name :: name in s.objects ==> exists i :: 1 <= i <= n && name == ObjectName(manager, i))
  }

  /** The manager name is one the API accepts, and the index leaves room for the member ID. */
  predicate Fits(manager: string, index: nat) {
    manager != "" && LabelValue(manager) && |ObjectNamePrefix(manager)| + |Text.Decimal(index)| <= 51
  }

  lemma NewProfileAdmissible(manager: string, index: nat)
    ensures Admissible(NewProfile(manager, index)) <==> Fits(manager, index)
  {
    var p := NewProfile(manager, index);
    ObjectNameShape(manager, index);
    MemberIDFits(manager, index);
    assert p.labels[ManagerKey] == manager && p.labels[MemberIDKey] == MemberID(p.name);
  }

  lemma {:induction false} DecimalLonger(i: nat, n: nat)
    requires i <= n
    ensures |Text.Decimal(i)| <= |Text.Decimal(n)|
  {
    var k := |Text.Decimal(n)|;
    Text.DecimalLength(n, k);
    Text.DecimalLength(i, k);
  }

  lemma FreshName(s: Store, namespace: string, manager: string, n: nat)
    requires HoldsSeeds(s, namespace, manager, n)
    ensures ObjectName(manager, n + 1) !in s.objects
  {
    forall i: nat | 1 <= i <= n ensures ObjectName(manager, i) != ObjectName(manager, n + 1) {
      NamesDistinct(manager, i, n + 1);
    }
  }

  /** What creating and updating a new profile leaves in the store. */
  lemma SeedStep(s: Store, namespace: string, manager: string, index: nat) returns (p: ClusterProfile)
    requires Keyed(s) && Fits(manager, index) && ObjectName(manager, index) !in s.objects
    ensures Seeded(p, namespace, manager, index)
    ensures SeedOne(s, namespace, manager, index) == (Store(s.objects[p.name := p], s.writes + 2), None)
  {
    NewProfileAdmissible(manager, index);
    var created := Stored(NewProfile(manager, index), namespace, s.writes);
    var status := WithStatus(created);
    assert status.conditions == [HEALTHY, JOINED] by {
      assert SetCondition([], HEALTHY) == [HEALTHY];
      assert SetCondition([HEALTHY], JOINED) == [HEALTHY] + SetCondition([], JOINED);
    }
    p := created.(conditions := status.conditions, kubernetesVersion := status.kubernetesVersion,
                  resourceVersion := Text.Decimal(s.writes + 1));
    assert s.objects[p.name := created][p.name := p] == s.objects[p.name := p];
  }

  lemma SeedNew(s: Store, namespace: string, manager: string, n: nat)
    requires Keyed(s) && HoldsSeeds(s, namespace, manager, n) && Fits(manager, n + 1)
    ensures SeedOne(s, namespace, manager, n + 1).1.None?
    ensures HoldsSeeds(SeedOne(s, namespace, manager, n + 1).0, namespace, manager, n + 1)
  {
    FreshName(s, namespace, manager, n);
    var p := SeedStep(s, namespace, manager, n + 1);
    var after := SeedOne(s, namespace, manager, n + 1).0;
    forall i | 1 <= i <= n + 1
      ensures ObjectName(manager, i) in after.objects
                && Seeded(after.objects[ObjectName(manager, i)], namespace, manager, i)
    {
      NamesDistinct(manager, i, n + 1);
    }
  }

  /** Seeding an object that is already there adopts it and writes the same status again. */
  lemma SeedKept(s: Store, namespace: string, manager: string, m: nat, i: nat)
    requires Keyed(s) && HoldsSeeds(s, namespace, manager, m) && 1 <= i <= m && Fits(manager, i)
    ensures SeedOne(s, namespace, manager, i).1.None?
    ensures HoldsSeeds(SeedOne(s, namespace, manager, i).0, namespace, manager, m)
  {
    NewProfileAdmissible(manager, i);
    var name := ObjectName(manager, i);
    var p := s.objects[name];
    assert WithStatus(p).conditions == [HEALTHY, JOINED] by {
      assert SetCondition([HEALTHY, JOINED], HEALTHY) == [HEALTHY] + [HEALTHY, JOINED][1..];
      assert SetCondition([JOINED], JOINED) == [JOINED];
      assert SetCondition([HEALTHY, JOINED], JOINED) == [HEALTHY] + SetCondition([JOINED], JOINED);
    }
    var after := SeedOne(s, namespace, manager, i).0;
    assert after.objects.Keys == s.objects.Keys;
    forall j | 1 <= j <= m
      ensures ObjectName(manager, j) in after.objects
                && Seeded(after.objects[ObjectName(manager, j)], namespace, manager, j)
    {
      NamesDistinct(manager, i, j);
    }
  }

  function Larger(m: nat, n: nat): nat {
    if n <= m then m else n
  }

  /** Step `n` of a run, whether it creates its object or adopts it. */
  lemma SeedNext(s: Store, namespace: string, manager: string, m: nat, n: nat)
    requires Keyed(s) && n > 0 && HoldsSeeds(s, namespace, manager, Larger(m, n - 1))
    ensures SeedOne(s, namespace, manager, n).1.None? <==> Fits(manager, n)
    ensures Fits(manager, n) ==> HoldsSeeds(SeedOne(s, namespace, manager, n).0, namespace, manager, Larger(m, n))
  {
    NewProfileAdmissible(manager, n);
    if Fits(manager, n) {
      if n <= m {
        SeedKept(s, namespace, manager, m, n);
      } else {
        SeedNew(s, namespace, manager, n - 1);
      }
    }
  }

  /** A result of seeding `n` objects over `m` that is right. */
  ghost predicate SeedsWell(r: (Store, Option<SeedError>), namespace: string, manager: string, m: nat, n: nat) {
    && (r.1.None? <==> n == 0 || Fits(manager, n))
    && (r.1.None? ==> HoldsSeeds(r.0, namespace, manager, Larger(m, n)))
  }

  lemma SeedExtended(s: Store, namespace: string, manager: string, m: nat, n: nat)
    requires Keyed(s) && n > 0 && SeedsWell(SeedMany(s, namespace, manager, n - 1), namespace, manager, m, n - 1)
    ensures SeedsWell(SeedMany(s, namespace, manager, n), namespace, manager, m, n)
  {
    var before := SeedMany(s, namespace, manager, n - 1);
    DecimalLonger(n - 1, n);
    assert Fits(manager, n) && n > 1 ==> Fits(manager, n - 1);
    if before.1.None? {
      SeedNext(before.0, namespace, manager, m, n);
      assert SeedMany(s, namespace, manager, n) == SeedOne(before.0, namespace, manager, n);
    } else {
      assert SeedMany(s, namespace, manager, n) == before;
    }
  }

  /** Seeding a namespace that holds `m` seeds, none or those of earlier runs, succeeds exactly
      when the API accepts the manager name and the last index leaves room for its member ID;
      then the namespace holds exactly the seeds of the larger count. */
  lemma {:induction false} SeedingAgain(s: Store, namespace: string, manager: string, m: nat, n: nat)
    requires Keyed(s) && HoldsSeeds(s, namespace, manager, m)
    ensures SeedsWell(SeedMany(s, namespace, manager, n), namespace, manager, m, n)
  {
    if n > 0 {
      SeedingAgain(s, namespace, manager, m, n - 1);
      SeedExtended(s, namespace, manager, m, n);
    }
  }

  /** Seeding an empty namespace: success leaves exactly the seeded objects. */
  lemma SeedingMeaning(namespace: string, manager: string, n: nat, writes: nat)
    requires n > 0
    ensures var (s, err) := SeedMany(Store(map[], writes), namespace, manager, n);
            && (err.None? <==> Fits(manager, n))
            && (err.None? ==> HoldsSeeds(s, namespace, manager, n))
  {
    SeedingAgain(Store(map[], writes), namespace, manager, 0, n);
  }

  /** Two managers whose names derive the same prefix: seeding for the second one where the first
      has seeds is refused at the first object and writes nothing. */
  lemma {:induction false} OtherManagerRefused(s: Store, namespace: string, owner: string, m: nat, manager: string,
          n: nat)
    requires Keyed(s) && HoldsSeeds(s, namespace, owner, m) && m > 0 && n > 0
    requires manager != owner && ObjectNamePrefix(manager) == ObjectNamePrefix(owner) && Fits(manager, 1)
    ensures SeedMany(s, namespace, manager, n) == (s, Some(OtherManager(ObjectName(owner, 1), owner)))
  {
    NewProfileAdmissible(manager, 1);
    assert ObjectName(manager, 1) == ObjectName(owner, 1);
    assert SeedMany(s, namespace, manager, 0) == (s, None);
    SeedStops(s, namespace, manager, 1, n);
  }

  ghost predicate SeedNames(names: set<string>, manager: string, n: nat) {
    && (forall i :: 1 <= i <= n ==> ObjectName(manager, i) in names)
    && (forall name :: name in names ==> exists i :: 1 <= i <= n && name == ObjectName(manager, i))
  }

  lemma {:induction false} NamesCounted(names: set<string>, manager: string, n: nat)
    requires SeedNames(names, manager, n)
    ensures |names| == n
    decreases n
  {
    if n == 0 {
      assert names == {};
    } else {
      var name := ObjectName(manager, n);
      var rest := names - {name};
      forall i: nat | 1 <= i < n ensures ObjectName(manager, i) != name {
        NamesDistinct(manager, i, n);
      }
      NamesCounted(rest, manager, n - 1);
      assert names == rest + {name};
    }
  }

  /** The seeded objects are as many as the steps. */
  lemma SeedsCounted(s: Store, namespace: string, manager: string, n: nat)
    requires HoldsSeeds(s, namespace, manager, n)
    ensures |s.objects| == n
  {
    NamesCounted(s.objects.Keys, manager, n);
    assert |s.objects| == |s.objects.Keys|;
  }
}
