/** From the seeder to the verdict: what the seeder writes, the suite judges a success. */
module SeedTheorems {
  import opened ConformanceTypes
  import opened Wrappers
  import opened Catalog
  import opened Checks
  import opened Requirements
  import opened Report
  import opened Suite
  import opened RunTheorems
  import opened Seed
  import opened Ordering
  import Text

  /** A list of all stored objects, in any order. */
  ghost predicate Enumerates(items: seq<ClusterProfile>, s: Store) {
    && |items| == |s.objects| && NoDuplicates(items)
    && forall p :: p in items ==> p.name in s.objects && s.objects[p.name] == p
  }

  /** Every listed profile is a seeded one, and no two share a name or a member ID. */
  ghost predicate SeededList(items: seq<ClusterProfile>, namespace: string, manager: string) {
    && (forall p :: p in items ==> exists i: nat :: Seeded(p, namespace, manager, i))
    && (forall i, j :: 0 <= i < j < |items| ==>
        items[i].name != items[j].name && items[i].MemberID() != items[j].MemberID())
  }

  lemma ListIsSeeded(items: seq<ClusterProfile>, sorted: seq<ClusterProfile>, s: Store, namespace: string,
          manager: string, n: nat)
    requires HoldsSeeds(s, namespace, manager, n) && Enumerates(items, s)
    requires multiset(sorted) == multiset(items)
    ensures SeededList(sorted, namespace, manager) && |sorted| == n
  {
    SeedsCounted(s, namespace, manager, n);
    SameElements(sorted, items);
    NoDuplicatesPermutation(items, sorted);
    forall p | p in sorted ensures exists i: nat :: Seeded(p, namespace, manager, i) {
      var i :| 1 <= i <= n && p.name == ObjectName(manager, i);
      assert Seeded(p, namespace, manager, i);
    }
    forall i, j | 0 <= i < j < |sorted|
      ensures sorted[i].name != sorted[j].name && sorted[i].MemberID() != sorted[j].MemberID()
    {
      var p, q := sorted[i], sorted[j];
      assert p in sorted && q in sorted;
      assert s.objects[p.name] == p && s.objects[q.name] == q;
      assert MemberID(p.name)[..|p.name|] == p.name && MemberID(q.name)[..|q.name|] == q.name;
      assert |MemberID(p.name)| == |p.name| + 3 && |MemberID(q.name)| == |q.name| + 3;
    }
  }

  lemma {:induction false} ManagedSeeds(items: seq<ClusterProfile>, manager: string, selected: string)
    requires forall p :: p in items ==> p.manager == manager
    requires selected in {"", manager}
    ensures Managed(items, selected) == items
  {
    if items != [] {
      assert items[0] in items;
      ManagedSeeds(items[1..], manager, selected);
      assert items == [items[0]] + items[1..];
    }
  }

  /** The API is served, namespaced and listable, and these profiles are all there are. */
  ghost predicate SeededSnapshot(s: Snapshot, namespace: string, manager: string) {
    && Served(s) && FirstIsNamespaced(s.resources.value) && s.profileError.None?
    && SeededList(s.profiles, namespace, manager) && s.managed == s.profiles != []
    && (s.expected > 0 ==> |s.profiles| == s.expected)
  }

  lemma SeededProfile(p: ClusterProfile, namespace: string, manager: string, i: nat)
    requires Seeded(p, namespace, manager, i)
    ensures p.HasCondition(HealthyCondition) && p.HasCondition(JoinedCondition)
    ensures p.MemberID() == MemberID(p.name) != "" && p.labels[ManagerKey] == p.manager && p.kubernetesVersion != ""
  {
    assert HEALTHY in p.conditions && JOINED in p.conditions;
  }

  lemma SeededSatisfies(id: CheckID, s: Snapshot, namespace: string, manager: string)
    requires !id.OtherCheck? && SeededSnapshot(s, namespace, manager)
    ensures Satisfied(id, s)
  {
    forall p | p in s.profiles
      ensures p.HasCondition(HealthyCondition) && p.HasCondition(JoinedCondition) && p.kubernetesVersion != ""
      ensures ManagerKey in p.labels && p.labels[ManagerKey] == p.manager
      ensures MemberIDKey in p.labels && p.labels[MemberIDKey] != "" && p.MemberID() != ""
    {
      var i: nat :| Seeded(p, namespace, manager, i);
      SeededProfile(p, namespace, manager, i);
    }
  }

  /** An environment that serves the seeded inventory to a run that can start. */
  ghost predicate Serves(o: Options, w: World, s: Store) {
    && ReachesChecks(o, w)
    && w.discovery.Discovered? && w.discovery.resources.Some? && FirstIsNamespaced(w.discovery.resources.value)
    && w.listing.Listed? && Enumerates(w.listing.items, s)
    && (o.runMode == Submission ==> w.version.Some? && w.version.value != "")
  }

  /** Unfiltered, for this manager or for all, expecting the seeded number or any. */
  ghost predicate Observes(o: Options, manager: string, n: nat) {
    o.filter == NoFilter && o.clusterManager in {"", manager} && o.expectedClusters in {0, n}
  }

  lemma SnapshotOfSeeds(o: Options, w: World, s: Store, manager: string, n: nat, items: seq<ClusterProfile>)
    requires n > 0 && HoldsSeeds(s, o.namespace, manager, n)
    requires Serves(o, w, s) && Observes(o, manager, n) && multiset(items) == multiset(ListedItems(w))
    ensures SeededSnapshot(SnapshotOf(o, w, items), o.namespace, manager)
  {
    ListIsSeeded(w.listing.items, items, s, o.namespace, manager, n);
    forall p | p in items ensures p.manager == manager {
      var i: nat :| Seeded(p, o.namespace, manager, i);
    }
    ManagedSeeds(items, manager, o.clusterManager);
    var i :| 0 <= i < |w.discovery.resources.value|
        && w.discovery.resources.value[i] == APIResource(ClusterProfiles, true);
    assert w.discovery.resources.value[i] in w.discovery.resources.value;
  }

  lemma SeedsIdentified(o: Options, items: seq<ClusterProfile>, manager: string)
    requires SeededList(items, o.namespace, manager)
    ensures ObjectsValid(References(items), o.namespace)
  {
    forall r | r in References(items)
      ensures r.namespace == o.namespace && r.name != "" && r.uid != "" && r.resourceVersion != ""
    {
      var k :| 0 <= k < |items| && References(items)[k] == r;
      assert items[k] in items;
      var i: nat :| Seeded(items[k], o.namespace, manager, i);
      ObjectNameShape(manager, i);
    }
  }

  lemma SeedsPass(o: Options, w: World, manager: string, items: seq<ClusterProfile>)
    requires o.filter == NoFilter && SeededSnapshot(SnapshotOf(o, w, items), o.namespace, manager)
    ensures Conformant(o, SnapshotOf(o, w, items))
    ensures forall t :: t in Judgements(o.filter, SnapshotOf(o, w, items)) ==> t.outcome == Passed
  {
    var snapshot := SnapshotOf(o, w, items);
    forall i | 0 <= i < |CATALOG|
      ensures Satisfied(CATALOG[i].id, snapshot) && Judgement(o.filter, CATALOG[i], snapshot).outcome == Passed
    {
      SeededSatisfies(CATALOG[i].id, snapshot, o.namespace, manager);
      JudgementMeaning(o, w, items, CATALOG[i]);
    }
  }

  /** A run that reaches the checks on a conformant, identified inventory. */
  lemma ConformantSucceeds(options: Options, w: World, items: seq<ClusterProfile>)
    requires ReachesChecks(Defaults(options), w)
    requires Conformant(Defaults(options), SnapshotOf(Defaults(options), w, items))
    requires options.runMode == Submission ==> Identified(Defaults(options), w, items)
    ensures EndingOf(Defaults(options), w, items).report.result == Success
    ensures EndingOf(Defaults(options), w, items).err.None?
  {
    SuccessMeaning(options, w, items);
    NoErrorIffSuccess(Defaults(options), w, items);
  }

  /** A run that reaches the checks reports the judgements and nothing else. */
  lemma ReportsJudgements(o: Options, w: World, items: seq<ClusterProfile>)
    requires ReachesChecks(o, w)
    ensures var r := EndingOf(o, w, items).report;
            |r.profiles| == 1 && r.profiles[0].tests == Judgements(o.filter, SnapshotOf(o, w, items))
  {
    EndingShape(o, w, items);
  }

  /** Observing a seeded inventory, whatever order the server lists it in and whatever features
      are claimed, passes every check of the catalog; the run succeeds, in submission mode too. */
  lemma SeededInventorySucceeds(options: Options, w: World, s: Store, manager: string, n: nat,
                                items: seq<ClusterProfile>)
    requires n > 0 && HoldsSeeds(s, options.namespace, manager, n)
    requires Serves(Defaults(options), w, s) && Observes(options, manager, n)
    requires SortOf(ByName, items, ListedItems(w))
    ensures var e := EndingOf(Defaults(options), w, items);
            && e.err.None? && e.report.result == Success
            && |e.report.profiles| == 1 && forall t :: t in e.report.profiles[0].tests ==> t.outcome == Passed
  {
    var o := Defaults(options);
    SnapshotOfSeeds(o, w, s, manager, n, items);
    SeedsIdentified(o, items, manager);
    SeedsPass(o, w, manager, items);
    ConformantSucceeds(options, w, items);
    ReportsJudgements(o, w, items);
  }

  /** End to end: for every manager name the API accepts and every count below 10^11, seeding an
      empty namespace succeeds and the suite judges the result a success. */
  lemma SeedThenRun(options: Options, w: World, manager: string, n: nat, writes: nat, items: seq<ClusterProfile>)
    requires manager != "" && LabelValue(manager) && 0 < n < Text.Pow10(11)
    requires Serves(Defaults(options), w, SeedMany(Store(map[], writes), options.namespace, manager, n).0)
    requires Observes(options, manager, n)
    requires SortOf(ByName, items, ListedItems(w))
    ensures SeedMany(Store(map[], writes), options.namespace, manager, n).1.None?
    ensures EndingOf(Defaults(options), w, items).report.result == Success
    ensures EndingOf(Defaults(options), w, items).err.None?
  {
    MemberIDFits(manager, n);
    SeedingMeaning(options.namespace, manager, n, writes);
    SeededInventorySucceeds(options, w, SeedMany(Store(map[], writes), options.namespace, manager, n).0, manager, n,
        items);
  }
}
