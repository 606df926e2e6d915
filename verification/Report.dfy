/** Report validation (conformance/report.go): the validator that recomputes a report, written
    apart from the runner that produces it. */
module Report {
  import opened ConformanceTypes
  import opened Wrappers
  import opened Catalog
  import opened Requirements
  import opened Ordering
  import Text

  // ----- options and reports share these -----

  function InventoryProblem(namespace: string, expected: int): Option<Message> {
    if namespace == "" then Some(NamespaceRequired)
    else if expected < 0 then Some(NegativeExpected)
    else None
  }

  function RunModeProblem(mode: RunMode): Option<Message> {
    if mode != Development && mode != Submission then Some(UnknownRunMode) else None
  }

  function FeaturesProblem(names: seq<Feature>, seen: set<Feature>): Option<Message> {
    if names == [] then
      if InventoryMemberUniqueness in seen && InventoryMemberID !in seen then Some(UniquenessNeedsMemberID) else None
    else if names[0] !in FEATURES then Some(UnknownFeature(names[0]))
    else if names[0] in seen then Some(DuplicateFeature(names[0]))
    else FeaturesProblem(names[1..], seen + {names[0]})
  }

  method ValidateFeatures(names: seq<Feature>) returns (err: Option<Message>)
    ensures err == FeaturesProblem(names, {})
    ensures err.None? <==> ClaimsValid(names)
  {
    FeaturesProblemMeaning(names, {});
    var seen: set<Feature> := {};
    for i := 0 to |names|
      invariant FeaturesProblem(names, {}) == FeaturesProblem(names[i..], seen)
    {
      var f := names[i];
      assert names[i..][1..] == names[i + 1..];
      if f !in FEATURES {
        return Some(UnknownFeature(f));
      }
      if f in seen {
        return Some(DuplicateFeature(f));
      }
      seen := seen + {f};
    }
    if InventoryMemberUniqueness in seen && InventoryMemberID !in seen {
      return Some(UniquenessNeedsMemberID);
    }
    err := None;
  }

  /** The claims are known, distinct, and uniqueness comes with member IDs. */
  ghost predicate ClaimsValid(names: seq<Feature>) {
    && (forall f :: f in names ==> f in FEATURES)
    && NoDuplicates(names)
    && (InventoryMemberUniqueness in names ==> InventoryMemberID in names)
  }

  lemma {:induction false} FeaturesProblemMeaning(names: seq<Feature>, seen: set<Feature>)
    ensures FeaturesProblem(names, seen).None? <==>
              && (forall f :: f in names ==> f in FEATURES && f !in seen)
              && NoDuplicates(names)
              && (InventoryMemberUniqueness in seen || InventoryMemberUniqueness in names ==>
                  InventoryMemberID in seen || InventoryMemberID in names)
    ensures FeaturesProblem(names, seen).Some? ==> !Blank(FeaturesProblem(names, seen).value)
  {
    if names != [] {
      var f, rest := names[0], names[1..];
      FeaturesProblemMeaning(rest, seen + {f});
      TailMultiset(names);
      NoDuplicatesPrepend(f, rest);
      assert forall g :: g in names <==> g == f || g in rest;
    }
  }

  /** The order of the claims does not matter, so sorting them keeps them valid. */
  lemma ClaimsPermutation(a: seq<Feature>, b: seq<Feature>)
    requires multiset(a) == multiset(b)
    ensures ClaimsValid(a) <==> ClaimsValid(b)
  {
    SameElements(a, b);
    if NoDuplicates(a) { NoDuplicatesPermutation(a, b); }
    if NoDuplicates(b) { NoDuplicatesPermutation(b, a); }
  }

  // ----- submission metadata -----

  /** A full lower-case commit hash. */
  predicate CommitHash(s: string) {
    |s| == 40 && forall c :: c in s ==> '0' <= c <= '9' || 'a' <= c <= 'f'
  }

  /** The metadata checks in source order: whether each fails, and the field it names. */
  function MetadataChecks(i: Implementation, suite: Source): seq<(bool, MetadataField)> {
    [ (Text.AllSpace(i.mode), ModeField), (Text.AllSpace(i.organization), OrganizationField),
      (Text.AllSpace(i.project), ProjectField), (Text.AllSpace(i.source.version), VersionField),
      (Text.AllSpace(suite.version), SuiteVersionField),
      (!CommitHash(i.source.revision), RevisionField), (i.source.dirty, DirtyField),
      (!CommitHash(suite.revision), SuiteRevisionField), (suite.dirty, SuiteDirtyField),
      (!i.url.wellFormed, URLField), (!i.reproduction.wellFormed, ReproductionField),
      (i.contact == [], ContactField) ]
    + seq(|i.contact|, k requires 0 <= k < |i.contact| => (Text.AllSpace(i.contact[k]), ContactEntryField))
  }

  function Failing(checks: seq<(bool, MetadataField)>): seq<MetadataField> {
    if checks == [] then []
    else
      var last := checks[|checks| - 1];
      Failing(checks[..|checks| - 1]) + if last.0 then [last.1] else []
  }

  function MetadataProblem(i: Implementation, suite: Source): Option<Message> {
    var errs := Failing(MetadataChecks(i, suite));
    if errs == [] then None else Some(MetadataProblems(errs))
  }

  /** Everything a submission must say about the implementation and the suite. */
  ghost predicate MetadataComplete(i: Implementation, suite: Source) {
    && !Text.AllSpace(i.mode) && !Text.AllSpace(i.organization) && !Text.AllSpace(i.project)
    && !Text.AllSpace(i.source.version) && !Text.AllSpace(suite.version)
    && CommitHash(i.source.revision) && !i.source.dirty
    && CommitHash(suite.revision) && !suite.dirty
    && i.url.wellFormed && i.reproduction.wellFormed
    && i.contact != [] && forall c :: c in i.contact ==> !Text.AllSpace(c)
  }

  lemma {:induction false} FailingMeaning(checks: seq<(bool, MetadataField)>)
    ensures Failing(checks) == [] <==> forall k :: 0 <= k < |checks| ==> !checks[k].0
  {
    if checks != [] {
      var n := |checks| - 1;
      FailingMeaning(checks[..n]);
      assert forall k :: 0 <= k < n ==> checks[..n][k] == checks[k];
    }
  }

  lemma MetadataProblemMeaning(i: Implementation, suite: Source)
    ensures MetadataProblem(i, suite).None? <==> MetadataComplete(i, suite)
  {
    var checks := MetadataChecks(i, suite);
    FailingMeaning(checks);
    if Failing(checks) == [] {
      forall c | c in i.contact ensures !Text.AllSpace(c) {
        var k :| 0 <= k < |i.contact| && i.contact[k] == c;
        assert !checks[12 + k].0;
      }
      assert forall k :: 0 <= k < 12 ==> !checks[k].0;
      assert !checks[0].0 && !checks[1].0 && !checks[2].0 && !checks[3].0 && !checks[4].0 && !checks[5].0;
      assert !checks[6].0 && !checks[7].0 && !checks[8].0 && !checks[9].0 && !checks[10].0 && !checks[11].0;
    }
  }

  method ValidateMetadata(i: Implementation, suite: Source) returns (err: Option<Message>)
    ensures err == MetadataProblem(i, suite)
  {
    var checks := MetadataChecks(i, suite);
    var errs := [];
    for k := 0 to |checks|
      invariant errs == Failing(checks[..k])
    {
      assert checks[..k + 1][..k] == checks[..k];
      if checks[k].0 {
        errs := errs + [checks[k].1];
      }
    }
    assert checks[..|checks|] == checks;
    err := if errs == [] then None else Some(MetadataProblems(errs));
  }

  // ----- the profile -----

  function FindRequirement(id: CheckID, reqs: seq<Requirement>): Option<Requirement> {
    if reqs == [] then None else if reqs[0].id == id then Some(reqs[0]) else FindRequirement(id, reqs[1..])
  }

  function TestProblem(t: TestResult, seen: set<CheckID>, catalog: seq<Requirement>): Option<Message> {
    var id := t.requirement.id;
    if id in seen then Some(DuplicateCheck(id))
    else if FindRequirement(id, catalog) != Some(t.requirement) then Some(ModifiedRequirement(id))
    else if t.outcome.OtherOutcome? then Some(InvalidOutcome(id))
    else if t.outcome != Passed && Blank(t.message) then Some(ReasonRequired(id))
    else if t.outcome == NotSupported && !t.requirement.Optional() then Some(RequiredNotSupported(id))
    else None
  }

  function TestsProblem(tests: seq<TestResult>, seen: set<CheckID>, catalog: seq<Requirement>): Option<Message> {
    if tests == [] then None
    else if TestProblem(tests[0], seen, catalog).Some? then TestProblem(tests[0], seen, catalog)
    else TestsProblem(tests[1..], seen + {tests[0].requirement.id}, catalog)
  }

  ghost function ProfileProblem(p: ProfileReport): Option<Message> {
    if p.name != ProducerProfile || p.api != ClusterProfileAPI || p.role != Producer then Some(UnknownProfileOrRole)
    else if FeaturesProblem(p.supportedFeatures, {}).Some? then FeaturesProblem(p.supportedFeatures, {})
    else if |p.tests| != |CATALOG| then Some(IncompleteCatalog(|p.tests|))
    else if TestsProblem(p.tests, {}, CATALOG).Some? then TestsProblem(p.tests, {}, CATALOG)
    else if p.statistics != Tally(p.tests) || p.result != Precedence(p.tests, p.supportedFeatures)
      then Some(SummaryMismatch)
    else None
  }

  method ValidateProfile(p: ProfileReport) returns (err: Option<Message>)
    ensures err == ProfileProblem(p)
  {
    if p.name != ProducerProfile || p.api != ClusterProfileAPI || p.role != Producer {
      return Some(UnknownProfileOrRole);
    }
    err := ValidateFeatures(p.supportedFeatures);
    if err.Some? {
      return;
    }
    if |p.tests| != |CATALOG| {
      return Some(IncompleteCatalog(|p.tests|));
    }
    var seen: set<CheckID> := {};
    for i := 0 to |p.tests|
      invariant TestsProblem(p.tests, {}, CATALOG) == TestsProblem(p.tests[i..], seen, CATALOG)
    {
      var t := p.tests[i];
      assert p.tests[i..][1..] == p.tests[i + 1..];
      err := TestProblem(t, seen, CATALOG);
      if err.Some? {
        return;
      }
      seen := seen + {t.requirement.id};
    }
    var stats, result := Summarize(p.tests, p.supportedFeatures);
    if stats != p.statistics || result != p.result {
      return Some(SummaryMismatch);
    }
    err := None;
  }

  // ----- the submission -----

  function ObjectsProblem(objects: seq<ObjectReference>, namespace: string,
          seen: set<(string, string)>): Option<Message> {
    if objects == [] then None
    else
      var o := objects[0];
      if o.namespace != namespace || o.name == "" || o.uid == "" || o.resourceVersion == ""
          || (o.namespace, o.name) in seen
      then Some(InvalidObject(o))
      else ObjectsProblem(objects[1..], namespace, seen + {(o.namespace, o.name)})
  }

  function SubmissionProblem(r: ConformanceReport): Option<Message> {
    if r.runMode != Submission then Some(NotASubmission)
    else if MetadataProblem(r.implementation, r.suite.source).Some?
        then MetadataProblem(r.implementation, r.suite.source)
    else if r.environment.kubernetesVersion == "" then Some(NoKubernetesVersion)
    else if r.result != Success && r.result != Partial then Some(NotAcceptable(r.result))
    else if r.environment.observedProfiles == [] then Some(NoObservedProfiles)
    else ObjectsProblem(r.environment.observedProfiles, r.environment.inventoryNamespace, {})
  }

  method ValidateSubmission(r: ConformanceReport) returns (err: Option<Message>)
    ensures err == SubmissionProblem(r)
  {
    if r.runMode != Submission {
      return Some(NotASubmission);
    }
    err := ValidateMetadata(r.implementation, r.suite.source);
    if err.Some? {
      return;
    }
    if r.environment.kubernetesVersion == "" {
      return Some(NoKubernetesVersion);
    }
    if r.result != Success && r.result != Partial {
      return Some(NotAcceptable(r.result));
    }
    var observed, namespace := r.environment.observedProfiles, r.environment.inventoryNamespace;
    if |observed| == 0 {
      return Some(NoObservedProfiles);
    }
    var objects: set<(string, string)> := {};
    for i := 0 to |observed|
      invariant ObjectsProblem(observed, namespace, {}) == ObjectsProblem(observed[i..], namespace, objects)
    {
      var o := observed[i];
      assert observed[i..][1..] == observed[i + 1..];
      var key := (o.namespace, o.name);
      if o.namespace != namespace || o.name == "" || o.uid == "" || o.resourceVersion == "" || key in objects {
        return Some(InvalidObject(o));
      }
      objects := objects + {key};
    }
    err := None;
  }

  // ----- the report -----

  predicate KnownSpecification(r: ConformanceReport) {
    && r.specification == Specification(PinnedSpecification, SpecRef(Top))
    && r.suite.catalogDigest == CatalogDigest
  }

  predicate KnownAPI(r: ConformanceReport) {
    r.api == APIInfo(V1alpha2, PinnedTypes)
  }

  /** The checks before the profile: schema, date, mode, pinned sources, count, inventory. */
  function PreambleProblem(r: ConformanceReport): Option<Message> {
    if r.schema != ReportSchema then Some(UnknownSchema)
    else if !r.date.wellFormed then Some(InvalidDate)
    else if RunModeProblem(r.runMode).Some? then RunModeProblem(r.runMode)
    else if !KnownSpecification(r) then Some(UnknownCatalog)
    else if !KnownAPI(r) then Some(UnknownAPIRevision)
    else if |r.profiles| != 1 then Some(ProfileCount)
    else InventoryProblem(r.environment.inventoryNamespace, r.environment.expectedClusters)
  }

  ghost function ReportProblem(r: ConformanceReport, submission: bool): Option<Message> {
    if PreambleProblem(r).Some? then PreambleProblem(r)
    else if ProfileProblem(r.profiles[0]).Some? then ProfileProblem(r.profiles[0])
    else if r.result != Rollup(r.profiles, r.errors) then Some(OverallMismatch)
    else if submission then SubmissionProblem(r)
    else None
  }

  method ValidateReport(r: ConformanceReport, submission: bool) returns (err: Option<Message>)
    ensures err == ReportProblem(r, submission)
    ensures err.None? <==> Acceptable(r, submission)
  {
    ReportProblemMeaning(r, submission);
    if r.schema != ReportSchema {
      return Some(UnknownSchema);
    }
    if !r.date.wellFormed {
      return Some(InvalidDate);
    }
    err := RunModeProblem(r.runMode);
    if err.Some? {
      return;
    }
    if !KnownSpecification(r) {
      return Some(UnknownCatalog);
    }
    if !KnownAPI(r) {
      return Some(UnknownAPIRevision);
    }
    if |r.profiles| != 1 {
      return Some(ProfileCount);
    }
    err := InventoryProblem(r.environment.inventoryNamespace, r.environment.expectedClusters);
    if err.Some? {
      return;
    }
    err := ValidateProfile(r.profiles[0]);
    if err.Some? {
      return;
    }
    var overall := Overall(r.profiles, r.errors);
    if r.result != overall {
      return Some(OverallMismatch);
    }
    if submission {
      err := ValidateSubmission(r);
      return;
    }
    err := None;
  }

  // ----- what acceptance means -----

  function RequirementsOf(tests: seq<TestResult>): (r: seq<Requirement>)
    ensures |r| == |tests| && forall i :: 0 <= i < |r| ==> r[i] == tests[i].requirement
  {
    seq(|tests|, i requires 0 <= i < |tests| => tests[i].requirement)
  }

  /** A profile is right when it answers the catalog, each requirement once and unmodified in
      any order, with reasons, and its summary follows from its tests. */
  ghost predicate ProfileAcceptable(p: ProfileReport) {
    && p.name == ProducerProfile && p.api == ClusterProfileAPI && p.role == Producer
    && ClaimsValid(p.supportedFeatures)
    && multiset(RequirementsOf(p.tests)) == multiset(CATALOG)
    && AllWellFormed(p.tests)
    && p.statistics == Tally(p.tests)
    && p.result == Precedence(p.tests, p.supportedFeatures)
  }

  /** The observed objects are identified, of this inventory, and listed once. */
  ghost predicate ObjectsValid(objects: seq<ObjectReference>, namespace: string) {
    && (forall o :: o in objects ==> o.namespace == namespace && o.name != "" && o.uid != "" && o.resourceVersion != "")
    && (forall i, j :: 0 <= i < j < |objects| ==> objects[i].name != objects[j].name)
  }

  ghost predicate SubmissionAcceptable(r: ConformanceReport) {
    && r.runMode == Submission
    && MetadataComplete(r.implementation, r.suite.source)
    && r.environment.kubernetesVersion != ""
    && r.result in {Success, Partial}
    && r.environment.observedProfiles != []
    && ObjectsValid(r.environment.observedProfiles, r.environment.inventoryNamespace)
  }

  predicate PreambleValid(r: ConformanceReport) {
    && r.schema == ReportSchema && r.date.wellFormed && r.runMode in {Development, Submission}
    && KnownSpecification(r) && KnownAPI(r)
    && |r.profiles| == 1
    && r.environment.inventoryNamespace != "" && r.environment.expectedClusters >= 0
  }

  ghost predicate Acceptable(r: ConformanceReport, submission: bool) {
    && PreambleValid(r) && ProfileAcceptable(r.profiles[0])
    && r.result == Rollup(r.profiles, r.errors)
    && (submission ==> SubmissionAcceptable(r))
  }

  lemma {:induction false} FindRequirementMeaning(req: Requirement, reqs: seq<Requirement>)
    requires DistinctIDs(reqs)
    ensures FindRequirement(req.id, reqs) == Some(req) <==> req in reqs
  {
    if reqs != [] {
      assert reqs == [reqs[0]] + reqs[1..];
      FindRequirementMeaning(req, reqs[1..]);
    }
  }

  ghost predicate DistinctIDs(reqs: seq<Requirement>) {
    forall i, j :: 0 <= i < j < |reqs| ==> reqs[i].id != reqs[j].id
  }

  ghost predicate AllWellFormed(tests: seq<TestResult>) {
    forall t :: t in tests ==> WellFormed(t)
  }

  lemma DistinctPrepend(req: Requirement, rest: seq<Requirement>)
    ensures DistinctIDs([req] + rest) <==> DistinctIDs(rest) && forall r :: r in rest ==> r.id != req.id
  {
    var all := [req] + rest;
    if DistinctIDs(all) {
      forall i, j | 0 <= i < j < |rest| ensures rest[i].id != rest[j].id {
        assert all[i + 1] == rest[i] && all[j + 1] == rest[j];
      }
      forall r | r in rest ensures r.id != req.id {
        var k :| 0 <= k < |rest| && rest[k] == r;
        assert all[k + 1] == r && all[0] == req;
      }
    }
    if DistinctIDs(rest) && forall r :: r in rest ==> r.id != req.id {
      forall i, j | 0 <= i < j < |all| ensures all[i].id != all[j].id {
        assert all[j] == rest[j - 1] && rest[j - 1] in rest;
        if i > 0 {
          assert all[i] == rest[i - 1];
        }
      }
    }
  }

  lemma TestProblemMeaning(t: TestResult, seen: set<CheckID>, catalog: seq<Requirement>)
    requires DistinctIDs(catalog)
    ensures TestProblem(t, seen, catalog).None? <==>
              t.requirement.id !in seen && t.requirement in catalog && WellFormed(t)
  {
    FindRequirementMeaning(t.requirement, catalog);
  }

  /** No test is about a check that was seen before. */
  ghost predicate AnswersUnseen(tests: seq<TestResult>, seen: set<CheckID>, catalog: seq<Requirement>) {
    forall t :: t in tests ==> t.requirement in catalog && t.requirement.id !in seen
  }

  lemma UnseenPrepend(t: TestResult, rest: seq<TestResult>, seen: set<CheckID>, catalog: seq<Requirement>)
    ensures AllWellFormed([t] + rest) <==> WellFormed(t) && AllWellFormed(rest)
    ensures AnswersUnseen([t] + rest, seen, catalog) && DistinctIDs(RequirementsOf([t] + rest))
            <==> && t.requirement in catalog && t.requirement.id !in seen
                 && AnswersUnseen(rest, seen + {t.requirement.id}, catalog) && DistinctIDs(RequirementsOf(rest))
  {
    var all, id := [t] + rest, t.requirement.id;
    RequirementsOfMeaning(rest);
    assert RequirementsOf(all) == [t.requirement] + RequirementsOf(rest);
    DistinctPrepend(t.requirement, RequirementsOf(rest));
    assert forall u :: u in all <==> u == t || u in rest;
  }

  lemma {:induction false} TestsProblemMeaning(tests: seq<TestResult>, seen: set<CheckID>, catalog: seq<Requirement>)
    requires DistinctIDs(catalog)
    ensures TestsProblem(tests, seen, catalog).None? <==>
              AllWellFormed(tests) && AnswersUnseen(tests, seen, catalog) && DistinctIDs(RequirementsOf(tests))
  {
    if tests != [] {
      var t, rest := tests[0], tests[1..];
      TestProblemMeaning(t, seen, catalog);
      TestsProblemMeaning(rest, seen + {t.requirement.id}, catalog);
      UnseenPrepend(t, rest, seen, catalog);
      assert tests == [t] + rest;
    }
  }

  /** Equally many entries, distinct IDs, each an entry of the catalog: then the entries are
      exactly the catalog in some order. */
  lemma Pigeonhole(reqs: seq<Requirement>, catalog: seq<Requirement>)
    requires |reqs| == |catalog| && DistinctIDs(catalog)
    ensures (forall r :: r in reqs ==> r in catalog) && DistinctIDs(reqs) <==> multiset(reqs) == multiset(catalog)
  {
    NoDuplicatesMultiset(catalog);
    if (forall r :: r in reqs ==> r in catalog) && DistinctIDs(reqs) {
      NoDuplicatesMultiset(reqs);
      var have, all := set r | r in reqs, set r | r in catalog;
      SubsetOfSameSize(have, all);
    }
    if multiset(reqs) == multiset(catalog) {
      SameElements(reqs, catalog);
      NoDuplicatesPermutation(catalog, reqs);
      forall i, j | 0 <= i < j < |reqs| ensures reqs[i].id != reqs[j].id {
        assert reqs[i] in reqs && reqs[j] in reqs;
      }
    }
  }

  lemma SubsetOfSameSize<T>(a: set<T>, b: set<T>)
    requires a <= b && |a| == |b|
    ensures a == b
  {
    assert b == a + (b - a);
    assert |b| == |a| + |b - a|;
  }

  lemma RequirementsOfMeaning(tests: seq<TestResult>)
    ensures forall r :: r in RequirementsOf(tests) <==> exists t :: t in tests && t.requirement == r
  {
    var reqs := RequirementsOf(tests);
    forall t | t in tests ensures t.requirement in reqs {
      var i :| 0 <= i < |tests| && tests[i] == t;
      assert reqs[i] == t.requirement;
    }
    forall r | r in reqs ensures exists t :: t in tests && t.requirement == r {
      var i :| 0 <= i < |reqs| && reqs[i] == r;
      assert tests[i] in tests;
    }
  }

  /** The loop over a complete list of tests accepts exactly the catalog in some order, every
      test of it well formed. */
  lemma CompleteTestsMeaning(tests: seq<TestResult>, catalog: seq<Requirement>)
    requires DistinctIDs(catalog)
    ensures |tests| == |catalog| && TestsProblem(tests, {}, catalog).None?
            <==> multiset(RequirementsOf(tests)) == multiset(catalog) && AllWellFormed(tests)
  {
    var reqs := RequirementsOf(tests);
    TestsProblemMeaning(tests, {}, catalog);
    RequirementsOfMeaning(tests);
    if |tests| == |catalog| {
      Pigeonhole(reqs, catalog);
    } else if multiset(reqs) == multiset(catalog) {
      SameElements(reqs, catalog);
      assert false;
    }
  }

  lemma CatalogDistinct()
    ensures DistinctIDs(CATALOG)
  {
    CatalogShape();
  }

  lemma ProfileProblemMeaning(p: ProfileReport)
    ensures ProfileProblem(p).None? <==> ProfileAcceptable(p)
  {
    CatalogDistinct();
    FeaturesProblemMeaning(p.supportedFeatures, {});
    CompleteTestsMeaning(p.tests, CATALOG);
  }

  lemma DistinctObjectsPrepend(o: ObjectReference, rest: seq<ObjectReference>)
    ensures (forall i, j :: 0 <= i < j < |[o] + rest| ==> ([o] + rest)[i].name != ([o] + rest)[j].name)
            <==> && (forall i, j :: 0 <= i < j < |rest| ==> rest[i].name != rest[j].name)
                 && forall p :: p in rest ==> p.name != o.name
  {
    var all := [o] + rest;
    if forall i, j :: 0 <= i < j < |all| ==> all[i].name != all[j].name {
      forall i, j | 0 <= i < j < |rest| ensures rest[i].name != rest[j].name {
        assert all[i + 1] == rest[i] && all[j + 1] == rest[j];
      }
      forall p | p in rest ensures p.name != o.name {
        var k :| 0 <= k < |rest| && rest[k] == p;
        assert all[k + 1] == p && all[0] == o;
      }
    }
    if && (forall i, j :: 0 <= i < j < |rest| ==> rest[i].name != rest[j].name)
       && forall p :: p in rest ==> p.name != o.name
    {
      forall i, j | 0 <= i < j < |all| ensures all[i].name != all[j].name {
        assert all[j] == rest[j - 1] && rest[j - 1] in rest;
        if i > 0 {
          assert all[i] == rest[i - 1];
        }
      }
    }
  }

  lemma {:induction false} ObjectsProblemMeaning(objects: seq<ObjectReference>, namespace: string,
          seen: set<(string, string)>)
    ensures ObjectsProblem(objects, namespace, seen).None? <==>
              && ObjectsValid(objects, namespace)
              && (forall o :: o in objects ==> (namespace, o.name) !in seen)
  {
    if objects != [] {
      var o, rest := objects[0], objects[1..];
      ObjectsProblemMeaning(rest, namespace, seen + {(o.namespace, o.name)});
      DistinctObjectsPrepend(o, rest);
      assert objects == [o] + rest;
      assert forall p :: p in objects <==> p == o || p in rest;
    }
  }

  lemma SubmissionProblemMeaning(r: ConformanceReport)
    ensures SubmissionProblem(r).None? <==> SubmissionAcceptable(r)
  {
    MetadataProblemMeaning(r.implementation, r.suite.source);
    ObjectsProblemMeaning(r.environment.observedProfiles, r.environment.inventoryNamespace, {});
  }

  /** The validator accepts exactly the reports that are right. */
  lemma ReportProblemMeaning(r: ConformanceReport, submission: bool)
    ensures ReportProblem(r, submission).None? <==> Acceptable(r, submission)
  {
    PreambleMeaning(r);
    if PreambleValid(r) {
      ProfileProblemMeaning(r.profiles[0]);
      SubmissionProblemMeaning(r);
    }
  }

  lemma PreambleMeaning(r: ConformanceReport)
    ensures PreambleProblem(r).None? <==> PreambleValid(r)
  {
  }
}
