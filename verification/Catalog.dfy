/** The requirement catalog and the aggregation of outcomes (conformance/catalog.go). */
module Catalog {
  import opened ConformanceTypes
  import opened Ordering

  function Entry(id: CheckID, level: Level, feature: Feature, scope: Scope, anchor: Anchor): Requirement {
    Requirement(id, CatalogProse(id), level, feature, scope, SpecRef(anchor))
  }

  const CATALOG: seq<Requirement> := [
    Entry(APIAvailability, Must, NoFeature, ScopeAPI, Top),
    Entry(Namespaced, Must, NoFeature, ScopeAPI, Organization),
    Entry(Representation, Must, NoFeature, ScopeManager, Relationship),
    Entry(ManagerValue, Must, NoFeature, ScopeManager, ClusterManagerSection),
    Entry(MemberIDValue, Must, NoFeature, ScopeManager, UniquenessSection),
    Entry(ManagerPresence, May, ClusterManagerLabel, ScopeManager, ClusterManagerSection),
    Entry(MemberIDPresence, Should, InventoryMemberID, ScopeManager, UniquenessSection),
    Entry(MemberUniqueness, Should, InventoryMemberUniqueness, ScopeInventory, UniquenessSection),
    Entry(HealthyPresence, Informative, ControlPlaneHealthy, ScopeManager, Conditions),
    Entry(JoinedPresence, Should, Joined, ScopeManager, Conditions),
    Entry(VersionPresence, Informative, KubernetesVersion, ScopeManager, Version)
  ]

  lemma CatalogShape()
    ensures |CATALOG| == 11
    ensures forall i, j :: 0 <= i < j < |CATALOG| ==> CATALOG[i].id != CATALOG[j].id
    ensures NoDuplicates(CATALOG)
    ensures forall i, j :: 0 <= i < j < |CATALOG| && CATALOG[i].Optional() ==> CATALOG[i].feature != CATALOG[j].feature
  {
    forall i, j | 0 <= i < j < |CATALOG|
      ensures CATALOG[i].id != CATALOG[j].id
      ensures CATALOG[i].Optional() ==> CATALOG[i].feature != CATALOG[j].feature
    {
    }
  }

  /** Two catalog entries with one ID, or with one feature, are the same entry. */
  lemma CatalogKeys(a: Requirement, b: Requirement)
    requires a in CATALOG && b in CATALOG
    ensures a.id == b.id ==> a == b
    ensures a.Optional() && a.feature == b.feature ==> a == b
  {
    CatalogShape();
  }

  /** Each optional capability once, in catalog order. */
  const FEATURES: seq<Feature> := [
    ClusterManagerLabel, InventoryMemberID, InventoryMemberUniqueness, ControlPlaneHealthy, Joined, KubernetesVersion
  ]

  /** The initialiser of `features`: the features of the optional entries. */
  method Features() returns (out: seq<Feature>)
    ensures out == FEATURES
  {
    out := [];
    var i := 0;
    while i < |CATALOG|
      invariant 0 <= i <= |CATALOG| == 11
      invariant out == if i <= 5 then [] else FEATURES[..i - 5]
    {
      var req := CATALOG[i];
      if req.Optional() {
        out := out + [req.feature];
      }
      i := i + 1;
    }
    assert FEATURES[..6] == FEATURES;
  }

  /** The claimable features are those of the optional catalog entries, each listed once. */
  lemma FeaturesMeaning()
    ensures NoDuplicates(FEATURES)
    ensures forall f :: f in FEATURES <==>
              exists k :: 0 <= k < |CATALOG| && CATALOG[k].Optional() && CATALOG[k].feature == f
  {
    forall f | f in FEATURES
      ensures exists k :: 0 <= k < |CATALOG| && CATALOG[k].Optional() && CATALOG[k].feature == f
    {
      var j :| 0 <= j < |FEATURES| && FEATURES[j] == f;
      assert CATALOG[j + 5].Optional() && CATALOG[j + 5].feature == f;
    }
    forall k | 0 <= k < |CATALOG| && CATALOG[k].Optional() ensures CATALOG[k].feature in FEATURES {
      assert k >= 5;
      assert FEATURES[k - 5] == CATALOG[k].feature;
    }
  }

  /** A test counts towards the result: it is required, or its feature is claimed. */
  predicate Gate(t: TestResult, supported: seq<Feature>) {
    !t.requirement.Optional() || t.requirement.feature in supported
  }

  /** `resultRank`, a map in which any other text has rank zero. */
  function Rank(r: Result): nat {
    match r
    case Success => 0
    case Partial => 1
    case Undetermined => 2
    case Failure => 3
    case OtherResult(_) => 0
  }

  function Combine(a: Result, b: Result): Result {
    if Rank(b) > Rank(a) then b else a
  }

  // ----- the documented precedence -----

  ghost predicate SomeGated(tests: seq<TestResult>, supported: seq<Feature>, outcomes: set<Outcome>) {
    exists t :: t in tests && Gate(t, supported) && t.outcome in outcomes
  }

  ghost predicate NothingGated(tests: seq<TestResult>, supported: seq<Feature>) {
    forall t :: t in tests ==> !Gate(t, supported)
  }

  /** The result the documentation promises: failure, then unknown, then partial, then success. */
  ghost function Precedence(tests: seq<TestResult>, supported: seq<Feature>): Result {
    if SomeGated(tests, supported, {Failed, NotSupported}) then Failure
    else if SomeGated(tests, supported, {Unknown}) || NothingGated(tests, supported) then Undetermined
    else if SomeGated(tests, supported, {Skipped}) then Partial
    else Success
  }

  ghost function Count(tests: seq<TestResult>, o: Outcome): nat {
    if tests == [] then 0 else Count(tests[1..], o) + (if tests[0].outcome == o then 1 else 0)
  }

  ghost function Tally(tests: seq<TestResult>): Statistics {
    Statistics(Count(tests, Passed), Count(tests, Failed), Count(tests, Skipped), Count(tests, Unknown),
               Count(tests, NotSupported), |tests|)
  }

  lemma {:induction false} CountConcat(a: seq<TestResult>, b: seq<TestResult>, o: Outcome)
    ensures Count(a + b, o) == Count(a, o) + Count(b, o)
  {
    if a == [] {
      assert a + b == b;
    } else {
      assert (a + b)[1..] == a[1..] + b;
      CountConcat(a[1..], b, o);
    }
  }

  lemma TallyNext(tests: seq<TestResult>, i: nat, o: Outcome)
    requires i < |tests|
    ensures Count(tests[..i + 1], o) == Count(tests[..i], o) + (if tests[i].outcome == o then 1 else 0)
  {
    assert tests[..i + 1] == tests[..i] + [tests[i]];
    CountConcat(tests[..i], [tests[i]], o);
    assert Count([tests[i]], o) == Count([], o) + (if tests[i].outcome == o then 1 else 0);
  }

  method Summarize(tests: seq<TestResult>, supported: seq<Feature>) returns (stats: Statistics, result: Result)
    ensures stats == Tally(tests)
    ensures result == Precedence(tests, supported)
  {
    var passed, failed, skipped, unknown, notSupported := 0, 0, 0, 0, 0;
    result := Success;
    var gated := 0;
    var i := 0;
    while i < |tests|
      invariant 0 <= i <= |tests|
      invariant passed == Count(tests[..i], Passed) && failed == Count(tests[..i], Failed)
      invariant skipped == Count(tests[..i], Skipped) && unknown == Count(tests[..i], Unknown)
      invariant notSupported == Count(tests[..i], NotSupported)
      invariant gated == 0 <==> NothingGated(tests[..i], supported)
      invariant gated >= 0
      invariant result == if gated == 0 then Success else Precedence(tests[..i], supported)
    {
      var t := tests[i];
      TallyNext(tests, i, Passed); TallyNext(tests, i, Failed); TallyNext(tests, i, Skipped);
      TallyNext(tests, i, Unknown); TallyNext(tests, i, NotSupported);
      PrecedenceNext(tests, i, supported);
      match t.outcome {
        case Passed => passed := passed + 1;
        case Failed => failed := failed + 1;
        case Skipped => skipped := skipped + 1;
        case Unknown => unknown := unknown + 1;
        case NotSupported => notSupported := notSupported + 1;
        case OtherOutcome(_) =>
      }
      i := i + 1;
      if !Gate(t, supported) {
        continue;
      }
      gated := gated + 1;
      match t.outcome {
        case Failed | NotSupported => result := Combine(result, Failure);
        case Unknown => result := Combine(result, Undetermined);
        case Skipped => result := Combine(result, Partial);
        case Passed | OtherOutcome(_) =>
      }
    }
    assert tests[..i] == tests;
    if gated == 0 {
      result := Combine(result, Undetermined);
    }
    stats := Statistics(passed, failed, skipped, unknown, notSupported, |tests|);
  }

  /** How one gated test moves the result. */
  function Weight(o: Outcome): Result {
    match o
    case Failed | NotSupported => Failure
    case Unknown => Undetermined
    case Skipped => Partial
    case Passed | OtherOutcome(_) => Success
  }

  lemma GatedNext(tests: seq<TestResult>, i: nat, supported: seq<Feature>)
    requires i < |tests|
    ensures forall os :: SomeGated(tests[..i + 1], supported, os) <==>
                         SomeGated(tests[..i], supported, os) || (Gate(tests[i], supported) && tests[i].outcome in os)
    ensures NothingGated(tests[..i + 1], supported) <==>
              NothingGated(tests[..i], supported) && !Gate(tests[i], supported)
  {
    assert tests[..i + 1] == tests[..i] + [tests[i]];
  }

  lemma PrecedenceNext(tests: seq<TestResult>, i: nat, supported: seq<Feature>)
    requires i < |tests|
    ensures var before := if NothingGated(tests[..i], supported) then Success else Precedence(tests[..i], supported);
            if Gate(tests[i], supported)
            then && !NothingGated(tests[..i + 1], supported)
                 && Precedence(tests[..i + 1], supported) == Combine(before, Weight(tests[i].outcome))
            else && NothingGated(tests[..i + 1], supported) == NothingGated(tests[..i], supported)
                 && Precedence(tests[..i + 1], supported) == Precedence(tests[..i], supported)
  {
    GatedNext(tests, i, supported);
  }

  lemma {:induction false} CountPermutation(a: seq<TestResult>, b: seq<TestResult>, o: Outcome)
    requires multiset(a) == multiset(b)
    ensures Count(a, o) == Count(b, o)
  {
    if a == [] {
      SameElements(a, b);
    } else {
      var k := TakeOut(a, b);
      var front, back := b[..k], b[k + 1..];
      CountPermutation(a[1..], front + back, o);
      CountConcat(front, back, o);
      CountConcat(front, [b[k]] + back, o);
      assert ([b[k]] + back)[1..] == back;
    }
  }

  /** Aggregation does not depend on the order of the tests. */
  lemma SummaryPermutation(a: seq<TestResult>, b: seq<TestResult>, supported: seq<Feature>)
    requires multiset(a) == multiset(b)
    ensures Tally(a) == Tally(b)
    ensures Precedence(a, supported) == Precedence(b, supported)
  {
    SameElements(a, b);
    CountPermutation(a, b, Passed); CountPermutation(a, b, Failed); CountPermutation(a, b, Skipped);
    CountPermutation(a, b, Unknown); CountPermutation(a, b, NotSupported);
  }

  /** The five counts add up to the total exactly when every outcome is a known one. */
  lemma {:induction false} TallyPartition(tests: seq<TestResult>)
    ensures var s := Tally(tests);
            var sum := s.passed + s.failed + s.skipped + s.unknown + s.notSupported;
            && sum <= s.total
            && (sum == s.total <==> forall t :: t in tests ==> !t.outcome.OtherOutcome?)
  {
    if tests != [] {
      TallyPartition(tests[1..]);
      assert tests == [tests[0]] + tests[1..];
    }
  }

  /** Claiming more features never improves the result once some test counts. */
  lemma ClaimingMore(tests: seq<TestResult>, fewer: seq<Feature>, more: seq<Feature>)
    requires forall f :: f in fewer ==> f in more
    requires !NothingGated(tests, fewer)
    ensures Rank(Precedence(tests, fewer)) <= Rank(Precedence(tests, more))
  {
  }

  /** When no test counts, a claim can turn an undetermined result into success. */
  lemma ClaimingMoreNeedsAGatedTest(t: TestResult)
    requires t.requirement.Optional() && t.outcome == Passed
    ensures Precedence([t], []) == Undetermined
    ensures Precedence([t], [t.requirement.feature]) == Success
  {
    assert t in [t];
  }

  // ----- the overall result -----

  ghost predicate SomeProfile(profiles: seq<ProfileReport>, r: Result) {
    exists p :: p in profiles && p.result == r
  }

  /** How profile results and run errors roll up. */
  ghost function Rollup(profiles: seq<ProfileReport>, errors: seq<Message>): Result {
    if SomeProfile(profiles, Failure) then Failure
    else if profiles == [] || errors != [] || SomeProfile(profiles, Undetermined) then Undetermined
    else if SomeProfile(profiles, Partial) then Partial
    else Success
  }

  method Overall(profiles: seq<ProfileReport>, errors: seq<Message>) returns (result: Result)
    ensures result == Rollup(profiles, errors)
  {
    result := Success;
    if profiles == [] {
      result := Undetermined;
    }
    var i := 0;
    while i < |profiles|
      invariant 0 <= i <= |profiles|
      invariant !result.OtherResult?
      invariant result == Failure <==> SomeProfile(profiles[..i], Failure)
      invariant Rank(result) >= 2 <==>
                SomeProfile(profiles[..i], Failure) || SomeProfile(profiles[..i], Undetermined) || profiles == []
      invariant Rank(result) >= 1 <==>
                || SomeProfile(profiles[..i], Failure) || SomeProfile(profiles[..i], Undetermined) || profiles == []
                || SomeProfile(profiles[..i], Partial)
    {
      assert profiles[..i + 1] == profiles[..i] + [profiles[i]];
      result := Combine(result, profiles[i].result);
      i := i + 1;
    }
    assert profiles[..i] == profiles;
    if errors != [] {
      result := Combine(result, Undetermined);
    }
  }
}
