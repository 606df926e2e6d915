/** What follows for a report once the validator has accepted it. */
module Acceptance {
  import opened ConformanceTypes
  import opened Wrappers
  import opened Catalog
  import opened Requirements
  import opened Report
  import opened Ordering

  /** The multiset of requirements, with the test at `k` taken out. */
  lemma RequirementsWithout(tests: seq<TestResult>, k: nat)
    requires k < |tests|
    ensures multiset(RequirementsOf(tests))
              == multiset{tests[k].requirement} + multiset(RequirementsOf(tests[..k] + tests[k + 1..]))
  {
    var reqs := RequirementsOf(tests);
    assert reqs == reqs[..k] + [reqs[k]] + reqs[k + 1..];
    assert RequirementsOf(tests[..k] + tests[k + 1..]) == reqs[..k] + reqs[k + 1..];
  }

  lemma RequirementsTail(tests: seq<TestResult>)
    requires tests != []
    ensures multiset(RequirementsOf(tests)) == multiset{tests[0].requirement} + multiset(RequirementsOf(tests[1..]))
  {
    var reqs := RequirementsOf(tests);
    TailMultiset(reqs);
    assert RequirementsOf(tests[1..]) == reqs[1..];
  }

  /** The first test of `a` taken out of a permutation of it. */
  lemma TakeOutTest(a: seq<TestResult>, b: seq<TestResult>) returns (rest: seq<TestResult>)
    requires a != [] && multiset(a) == multiset(b)
    ensures multiset(a[1..]) == multiset(rest)
    ensures multiset(RequirementsOf(b)) == multiset{a[0].requirement} + multiset(RequirementsOf(rest))
  {
    var k := TakeOut(a, b);
    rest := b[..k] + b[k + 1..];
    RequirementsWithout(b, k);
  }

  lemma {:induction false} RequirementsPermutation(a: seq<TestResult>, b: seq<TestResult>)
    requires multiset(a) == multiset(b)
    ensures multiset(RequirementsOf(a)) == multiset(RequirementsOf(b))
  {
    if a != [] {
      var rest := TakeOutTest(a, b);
      RequirementsPermutation(a[1..], rest);
      RequirementsTail(a);
    } else {
      SameElements(a, b);
      assert b == [];
    }
  }

  /** Acceptance does not depend on the order of the tests. */
  lemma AcceptancePermutation(p: ProfileReport, tests: seq<TestResult>)
    requires multiset(tests) == multiset(p.tests)
    ensures ProfileProblem(p).None? <==> ProfileProblem(p.(tests := tests)).None?
  {
    var q := p.(tests := tests);
    ProfileProblemMeaning(p);
    ProfileProblemMeaning(q);
    SameElements(tests, p.tests);
    RequirementsPermutation(tests, p.tests);
    SummaryPermutation(tests, p.tests, p.supportedFeatures);
    assert AllWellFormed(tests) <==> AllWellFormed(p.tests);
  }

  /** The tests answer every requirement of the catalog exactly once. */
  ghost predicate AnswersOnce(tests: seq<TestResult>, catalog: seq<Requirement>) {
    && (forall req :: req in catalog ==> exists t :: t in tests && t.requirement == req)
    && (forall t :: t in tests ==> t.requirement in catalog)
    && (forall i, j :: 0 <= i < j < |tests| ==> tests[i].requirement != tests[j].requirement)
  }

  lemma PermutationAnswersOnce(tests: seq<TestResult>, catalog: seq<Requirement>)
    requires multiset(RequirementsOf(tests)) == multiset(catalog) && NoDuplicates(catalog)
    ensures AnswersOnce(tests, catalog)
  {
    var reqs := RequirementsOf(tests);
    SameElements(reqs, catalog);
    RequirementsOfMeaning(tests);
    NoDuplicatesPermutation(catalog, reqs);
    forall i, j | 0 <= i < j < |tests| ensures tests[i].requirement != tests[j].requirement {
      assert reqs[i] != reqs[j];
    }
  }

  /** An accepted profile answers every requirement of the catalog exactly once. */
  lemma AcceptedIsTheCatalog(p: ProfileReport)
    requires ProfileProblem(p).None?
    ensures AnswersOnce(p.tests, CATALOG)
  {
    ProfileProblemMeaning(p);
    CatalogShape();
    PermutationAnswersOnce(p.tests, CATALOG);
  }

  // ----- the cells of the matrix -----

  datatype Cell = Unclaimed | Cell(outcome: Outcome)

  function FirstNotPassing(tests: seq<TestResult>, feature: Feature): Outcome {
    if tests == [] then Passed
    else if tests[0].requirement.feature == feature && tests[0].outcome != Passed then tests[0].outcome
    else FirstNotPassing(tests[1..], feature)
  }

  function FeatureStatus(p: ProfileReport, feature: Feature): Cell {
    if feature !in p.supportedFeatures then Unclaimed else Cell(FirstNotPassing(p.tests, feature))
  }

  lemma {:induction false} FirstNotPassingMeaning(tests: seq<TestResult>, feature: Feature)
    ensures var o := FirstNotPassing(tests, feature);
            if o == Passed then forall t :: t in tests && t.requirement.feature == feature ==> t.outcome == Passed
            else exists t :: t in tests && t.requirement.feature == feature && t.outcome == o
  {
    if tests != [] {
      assert tests == [tests[0]] + tests[1..];
      FirstNotPassingMeaning(tests[1..], feature);
    }
  }

  /** Within a catalog that mentions a feature once, the cell of a feature is the outcome of
      the one test about it. */
  lemma OneTestPerFeature(tests: seq<TestResult>, catalog: seq<Requirement>, feature: Feature, t: TestResult)
    requires AnswersOnce(tests, catalog)
    requires forall a, b :: a in catalog && b in catalog && a.feature == b.feature == feature ==> a == b
    requires t in tests && t.requirement.feature == feature
    ensures FirstNotPassing(tests, feature) == t.outcome
  {
    FirstNotPassingMeaning(tests, feature);
    if u :| u in tests && u.requirement.feature == feature && u.outcome == FirstNotPassing(tests, feature) {
      var i :| 0 <= i < |tests| && tests[i] == t;
      var j :| 0 <= j < |tests| && tests[j] == u;
      assert u == t;
    }
  }

  /** A gated test of a profile with an acceptable result did not fail. */
  lemma GatedOutcome(p: ProfileReport, t: TestResult)
    requires p.result == Precedence(p.tests, p.supportedFeatures) && p.result in {Success, Partial}
    requires t in p.tests && Gate(t, p.supportedFeatures) && WellFormed(t)
    ensures t.outcome in {Passed, Skipped}
    ensures p.result == Success ==> t.outcome == Passed
  {
  }

  /** In an accepted submission the cell of a claimed feature is the outcome of the one test
      about it. That outcome is passed or skipped, and passed when the report is a success. */
  lemma ClaimedCell(r: ConformanceReport, feature: Feature)
    requires ReportProblem(r, true).None?
    requires feature in r.profiles[0].supportedFeatures
    ensures exists t :: t in r.profiles[0].tests && t.requirement.feature == feature
                        && FeatureStatus(r.profiles[0], feature) == Cell(t.outcome)
    ensures FeatureStatus(r.profiles[0], feature) in {Cell(Passed), Cell(Skipped)}
    ensures r.result == Success ==> FeatureStatus(r.profiles[0], feature) == Cell(Passed)
  {
    var p := r.profiles[0];
    AcceptedSubmission(r);
    CellOfClaim(p, feature);
  }

  lemma SubmissionResult(r: ConformanceReport)
    requires |r.profiles| == 1 && r.result == Rollup(r.profiles, r.errors) && r.result in {Success, Partial}
    requires r.profiles[0].result == Precedence(r.profiles[0].tests, r.profiles[0].supportedFeatures)
    ensures r.profiles[0].result in {Success, Partial}
    ensures r.result == Success ==> r.profiles[0].result == Success
  {
    assert r.profiles[0] in r.profiles;
  }

  lemma AcceptedSubmission(r: ConformanceReport)
    requires ReportProblem(r, true).None?
    ensures |r.profiles| == 1 && ProfileProblem(r.profiles[0]).None?
    ensures r.profiles[0].result in {Success, Partial}
    ensures r.result == Success ==> r.profiles[0].result == Success
  {
    ReportProblemMeaning(r, true);
    assert Acceptable(r, true);
    ProfileProblemMeaning(r.profiles[0]);
    SubmissionResult(r);
  }

  lemma CellOfClaim(p: ProfileReport, feature: Feature)
    requires ProfileProblem(p).None? && p.result in {Success, Partial}
    requires feature in p.supportedFeatures
    ensures exists t :: t in p.tests && t.requirement.feature == feature && FeatureStatus(p, feature) == Cell(t.outcome)
    ensures FeatureStatus(p, feature) in {Cell(Passed), Cell(Skipped)}
    ensures p.result == Success ==> FeatureStatus(p, feature) == Cell(Passed)
  {
    AcceptedIsTheCatalog(p);
    ProfileProblemMeaning(p);
    var req := ClaimedRequirement(feature);
    var t :| t in p.tests && t.requirement == req;
    OneTestPerFeature(p.tests, CATALOG, feature, t);
    GatedOutcome(p, t);
  }

  lemma ClaimedRequirement(feature: Feature) returns (req: Requirement)
    requires feature in FEATURES
    ensures req in CATALOG && req.Optional() && req.feature == feature
    ensures forall a, b :: a in CATALOG && b in CATALOG && a.feature == b.feature == feature ==> a == b
  {
    FeaturesMeaning();
    var k :| 0 <= k < |CATALOG| && CATALOG[k].Optional() && CATALOG[k].feature == feature;
    req := CATALOG[k];
    forall a, b | a in CATALOG && b in CATALOG && a.feature == b.feature == feature ensures a == b {
      CatalogKeys(a, b);
    }
  }
}
