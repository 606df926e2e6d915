/** Properties of every run, whatever the options and whatever the API server answers. In each
    lemma `items` is the listed inventory in the order `Run` puts it in. */
module RunTheorems {
  import opened ConformanceTypes
  import opened Wrappers
  import opened Catalog
  import opened Checks
  import opened Requirements
  import opened Report
  import opened Suite
  import opened Ordering
  import Text

  // ----- every report has the shape the validator expects -----

  /** A complete, summarised report of the current suite. */
  ghost predicate Shaped(r: ConformanceReport, o: Options) {
    && r.schema == ReportSchema && r.date.wellFormed && KnownSpecification(r) && KnownAPI(r)
    && r.runMode == o.runMode && r.implementation == o.implementation && r.suite.source == o.suite
    && r.environment.inventoryNamespace == o.namespace && r.environment.expectedClusters == o.expectedClusters
    && |r.profiles| == 1
    && var p := r.profiles[0];
    && p.name == ProducerProfile && p.api == ClusterProfileAPI && p.role == Producer
    && p.supportedFeatures == Sorted(FeatureLe, o.supportedFeatures)
    && RequirementsOf(p.tests) == CATALOG
  }

  ghost predicate Summarised(r: ConformanceReport) {
    r == Finished(r)
  }

  lemma FinishedShaped(r: ConformanceReport, o: Options)
    requires Shaped(r, o)
    ensures Shaped(Finished(r), o) && Summarised(Finished(r))
    ensures Finished(r).profiles[0].tests == r.profiles[0].tests
    ensures Finished(r).errors == r.errors && Finished(r).environment == r.environment
  {
    var f := Finished(r);
    assert FinishedProfiles(f.profiles) == f.profiles;
  }

  /** A report just created, apart from what the environment section records. */
  ghost predicate Fresh(r: ConformanceReport, o: Options) {
    && r == NewReport(o, r.date.text).(environment := r.environment)
    && r.environment.inventoryNamespace == o.namespace && r.environment.expectedClusters == o.expectedClusters
  }

  /** What every ending has in common. */
  ghost predicate Ended(r: ConformanceReport, o: Options, tests: seq<TestResult>) {
    Shaped(r, o) && Summarised(r) && r.profiles[0].tests == tests
  }

  lemma FilledShaped(r: ConformanceReport, o: Options, tests: seq<TestResult>)
    requires Fresh(r, o) && RequirementsOf(tests) == CATALOG
    ensures Shaped(WithTests(r, tests), o)
    ensures WithTests(r, tests).profiles[0].tests == tests
    ensures Ended(Finished(WithTests(r, tests)), o, tests) && Finished(WithTests(r, tests)).errors == []
  {
    assert [] + tests == tests;
    FinishedShaped(WithTests(r, tests), o);
  }

  lemma AbortedShaped(r: ConformanceReport, o: Options, tests: seq<TestResult>, err: Message)
    requires Shaped(r, o) && r.profiles[0].tests == tests
    ensures var a := Aborted(r, err).report; Ended(a, o, tests) && a.errors != [] && a.environment == r.environment
  {
    FinishedShaped(r.(errors := r.errors + [err]), o);
  }

  /** A run that stops early: the tests are filled in, the error is recorded. */
  lemma StoppedShaped(r: ConformanceReport, o: Options, tests: seq<TestResult>, err: Message)
    requires Fresh(r, o) && RequirementsOf(tests) == CATALOG
    ensures var a := Aborted(WithTests(r, tests), err).report; Ended(a, o, tests) && a.errors != []
  {
    FilledShaped(r, o, tests);
    AbortedShaped(WithTests(r, tests), o, tests, err);
  }

  lemma ConcludedShaped(r: ConformanceReport, o: Options, tests: seq<TestResult>)
    requires Ended(r, o, tests)
    ensures var e := Concluded(o, r); Ended(e.report, o, tests) && e.report.environment == r.environment
  {
    if o.runMode == Submission && ReportProblem(r, true).Some? {
      AbortedShaped(r, o, tests, ReportProblem(r, true).value);
    }
  }

  lemma FilledRequirements(state: Outcome, message: Message)
    requires state in {Skipped, Unknown}
    ensures RequirementsOf(Filled(state, message)) == CATALOG
    ensures AllWellFormed(Filled(state, message)) <==> !Blank(message)
  {
    assert Filled(state, message)[0] in Filled(state, message);
  }

  lemma JudgementsRequirements(filter: TestFilter, s: Snapshot)
    ensures RequirementsOf(Judgements(filter, s)) == CATALOG
    ensures AllWellFormed(Judgements(filter, s))
  {
    forall i | 0 <= i < |CATALOG|
      ensures Judgement(filter, CATALOG[i], s).requirement == CATALOG[i] && WellFormed(Judgement(filter, CATALOG[i], s))
    {
      VerdictWellFormed(CATALOG[i], s);
    }
    assert RequirementsOf(Judgements(filter, s)) == CATALOG;
  }

  /** The tests a run reports. */
  ghost function TestsOf(o: Options, w: World, items: seq<ClusterProfile>): seq<TestResult> {
    if BeforeConnecting(o).Stopped? then Filled(Unknown, BeforeConnecting(o).err)
    else if NothingSelected(o.filter) then Filled(Skipped, ExcludedByFilter)
    else if MetadataGate(o).Stopped? then Filled(Unknown, MetadataGate(o).err)
    else if w.connectError.Some? then Filled(Unknown, FreeText(w.connectError.value))
    else if Reading(w).Stopped? then Filled(Unknown, Reading(w).err)
    else Judgements(o.filter, SnapshotOf(o, w, items))
  }

  /** The run gets as far as judging the inventory. */
  ghost predicate ReachesChecks(o: Options, w: World) {
    && BeforeConnecting(o).Ready? && !NothingSelected(o.filter) && MetadataGate(o).Ready?
    && w.connectError.None? && Reading(w).Ready?
  }

  lemma TestsOfRequirements(o: Options, w: World, items: seq<ClusterProfile>)
    ensures RequirementsOf(TestsOf(o, w, items)) == CATALOG
  {
    if BeforeConnecting(o).Stopped? {
      FilledRequirements(Unknown, BeforeConnecting(o).err);
    } else if NothingSelected(o.filter) {
      FilledRequirements(Skipped, ExcludedByFilter);
    } else if MetadataGate(o).Stopped? {
      FilledRequirements(Unknown, MetadataGate(o).err);
    } else if w.connectError.Some? {
      FilledRequirements(Unknown, FreeText(w.connectError.value));
    } else if Reading(w).Stopped? {
      FilledRequirements(Unknown, Reading(w).err);
    } else {
      JudgementsRequirements(o.filter, SnapshotOf(o, w, items));
    }
  }

  lemma ObservationShape(o: Options, w: World, items: seq<ClusterProfile>)
    requires ReachesChecks(o, w)
    ensures Ended(Observation(o, w, items), o, TestsOf(o, w, items)) && Observation(o, w, items).errors == []
    ensures EndingOf(o, w, items) == Concluded(o, Observation(o, w, items))
  {
    TestsOfRequirements(o, w, items);
    var r := WithObserved(WithVersion(NewReport(o, w.now), w.version), items);
    FilledShaped(r, o, TestsOf(o, w, items));
  }

  // ----- runs that stop early -----

  /** Where a run that stops records its tests: the version is known once it has connected. */
  ghost function StoppedBase(o: Options, w: World): ConformanceReport {
    var r := NewReport(o, w.now);
    if BeforeConnecting(o).Stopped? || NothingSelected(o.filter) || MetadataGate(o).Stopped? || w.connectError.Some?
    then r
    else WithVersion(r, w.version)
  }

  ghost function StopReason(o: Options, w: World): Message
    requires !ReachesChecks(o, w)
  {
    if BeforeConnecting(o).Stopped? then BeforeConnecting(o).err
    else if NothingSelected(o.filter) then NoChecksSelected
    else if MetadataGate(o).Stopped? then MetadataGate(o).err
    else if w.connectError.Some? then FreeText(w.connectError.value)
    else Reading(w).err
  }

  lemma StoppedEnding(o: Options, w: World, items: seq<ClusterProfile>)
    requires !ReachesChecks(o, w)
    ensures EndingOf(o, w, items) == Aborted(WithTests(StoppedBase(o, w), TestsOf(o, w, items)), StopReason(o, w))
    ensures Fresh(StoppedBase(o, w), o)
  {
  }

  /** Every run reports the whole catalog, summarised; a run that does not reach the checks
      records its error. */
  lemma EndingShape(o: Options, w: World, items: seq<ClusterProfile>)
    ensures Ended(EndingOf(o, w, items).report, o, TestsOf(o, w, items))
    ensures !ReachesChecks(o, w) ==> EndingOf(o, w, items).report.errors != [] && EndingOf(o, w, items).err.Some?
  {
    TestsOfRequirements(o, w, items);
    if ReachesChecks(o, w) {
      ObservationShape(o, w, items);
      ConcludedShaped(Observation(o, w, items), o, TestsOf(o, w, items));
    } else {
      StoppedEnding(o, w, items);
      StoppedShaped(StoppedBase(o, w), o, TestsOf(o, w, items), StopReason(o, w));
    }
  }

  // ----- producer and validator agree -----

  /** What the validator can see of the options in a report. */
  ghost predicate Reportable(o: Options) {
    o.runMode in {Development, Submission} && o.namespace != "" && o.expectedClusters >= 0
        && ClaimsValid(o.supportedFeatures)
  }

  /** Connecting failed with an error whose text is blank. */
  ghost predicate BlankConnectError(o: Options, w: World) {
    && BeforeConnecting(o).Ready? && !NothingSelected(o.filter) && MetadataGate(o).Ready?
    && w.connectError.Some? && Text.AllSpace(w.connectError.value)
  }

  lemma SortedClaims(o: Options)
    ensures SortOf(FeatureLe, Sorted(FeatureLe, o.supportedFeatures), o.supportedFeatures)
    ensures ClaimsValid(Sorted(FeatureLe, o.supportedFeatures)) <==> ClaimsValid(o.supportedFeatures)
    ensures forall f :: f in Sorted(FeatureLe, o.supportedFeatures) <==> f in o.supportedFeatures
  {
    FeatureLeOrder();
    SortedIsSort(FeatureLe, o.supportedFeatures);
    SameElements(Sorted(FeatureLe, o.supportedFeatures), o.supportedFeatures);
    ClaimsPermutation(Sorted(FeatureLe, o.supportedFeatures), o.supportedFeatures);
  }

  lemma EndedAcceptable(r: ConformanceReport, o: Options, tests: seq<TestResult>)
    requires Ended(r, o, tests)
    ensures ReportProblem(r, false).None? <==> Reportable(o) && AllWellFormed(tests)
  {
    ReportProblemMeaning(r, false);
    SortedClaims(o);
    assert r.profiles[0] == FinishedProfile(r.profiles[0]);
  }

  lemma ValidOptionsReportable(o: Options)
    requires OptionsProblem(o).None?
    ensures Reportable(o)
  {
    FeaturesProblemMeaning(o.supportedFeatures, {});
  }

  lemma OptionsMessagesNotBlank(o: Options)
    ensures BeforeConnecting(o).Stopped? ==> !Blank(BeforeConnecting(o).err)
    ensures MetadataGate(o).Stopped? ==> !Blank(MetadataGate(o).err)
  {
    FeaturesProblemMeaning(o.supportedFeatures, {});
  }

  lemma TestsOfWellFormed(o: Options, w: World, items: seq<ClusterProfile>)
    ensures AllWellFormed(TestsOf(o, w, items)) <==> !BlankConnectError(o, w)
  {
    OptionsMessagesNotBlank(o);
    if BeforeConnecting(o).Stopped? {
      FilledRequirements(Unknown, BeforeConnecting(o).err);
    } else if NothingSelected(o.filter) {
      FilledRequirements(Skipped, ExcludedByFilter);
    } else if MetadataGate(o).Stopped? {
      FilledRequirements(Unknown, MetadataGate(o).err);
    } else if w.connectError.Some? {
      FilledRequirements(Unknown, FreeText(w.connectError.value));
    } else if Reading(w).Stopped? {
      FilledRequirements(Unknown, Reading(w).err);
    } else {
      JudgementsRequirements(o.filter, SnapshotOf(o, w, items));
    }
  }

  /** The validator accepts the report of a run, whatever happened during it, exactly when the
      report states a run mode, a namespace, a count and claims that are valid, and the run was
      not stopped by a connection error without text. */
  lemma ProducerAndValidatorAgree(options: Options, w: World, items: seq<ClusterProfile>)
    ensures var o := Defaults(options);
            ReportProblem(EndingOf(o, w, items).report, false).None? <==> Reportable(o) && !BlankConnectError(o, w)
  {
    var o := Defaults(options);
    EndingShape(o, w, items);
    EndedAcceptable(EndingOf(o, w, items).report, o, TestsOf(o, w, items));
    TestsOfWellFormed(o, w, items);
  }

  lemma BlankConnectErrorHappens() returns (o: Options, w: World)
    ensures OptionsProblem(o).None? && o == Defaults(o) && w.connectError == Some(" ") && BlankConnectError(o, w)
  {
    var source := Source("v1", "", false);
    var implementation := Implementation("", "", source, "default", Stamp("", false), [], Stamp("", false));
    o := Options("inventory", "", 0, [], [], [], NoFilter, Development, implementation, source, [YAML], 1);
    w := World("now", Some(" "), None, false, Readable, Discovered(None), Listed([]));
    var catalog := CATALOG;
    assert catalog[0] in catalog;
  }

  /** A run whose report the validator rejects although its options are valid: the connection
      error is a single space. */
  lemma BlankConnectErrorRejected(items: seq<ClusterProfile>) returns (o: Options, w: World)
    ensures OptionsProblem(o).None? && w.connectError == Some(" ")
    ensures ReportProblem(EndingOf(o, w, items).report, false).Some?
  {
    o, w := BlankConnectErrorHappens();
    ProducerAndValidatorAgree(o, w, items);
  }

  /** In particular, options that pass `validateOptions` always give an acceptable report. */
  lemma ValidOptionsGiveAcceptableReports(options: Options, w: World, items: seq<ClusterProfile>)
    requires OptionsProblem(Defaults(options)).None?
    requires w.connectError.Some? ==> !Text.AllSpace(w.connectError.value)
    ensures ReportProblem(EndingOf(Defaults(options), w, items).report, false).None?
  {
    ValidOptionsReportable(Defaults(options));
    ProducerAndValidatorAgree(options, w, items);
  }

  // ----- errors and results -----

  lemma ErrorsForbidSuccess(r: ConformanceReport)
    requires Summarised(r) && r.errors != []
    ensures r.result in {Failure, Undetermined}
  {
  }

  lemma ErrorsForbidSubmission(r: ConformanceReport)
    requires Summarised(r) && r.errors != []
    ensures ReportProblem(r, true).Some?
  {
    ErrorsForbidSuccess(r);
    assert SubmissionProblem(r).Some?;
  }

  lemma ConcludedErrors(o: Options, r: ConformanceReport)
    requires Summarised(r) && r.errors == []
    ensures var e := Concluded(o, r);
            && (e.err.None? <==> e.report.result == Success)
            && (e.report.errors != [] ==> Summarised(e.report))
            && (o.runMode == Submission && e.report.errors == [] ==> ReportProblem(e.report, true).None?)
  {
    if o.runMode == Submission && ReportProblem(r, true).Some? {
      var failed := r.(errors := r.errors + [ReportProblem(r, true).value]);
      assert Finished(Finished(failed)) == Finished(failed) by {
        assert FinishedProfiles(FinishedProfiles(failed.profiles)) == FinishedProfiles(failed.profiles);
      }
      ErrorsForbidSuccess(Finished(failed));
    }
  }

  /** A run returns no error exactly when its report is a success. */
  lemma NoErrorIffSuccess(o: Options, w: World, items: seq<ClusterProfile>)
    ensures EndingOf(o, w, items).err.None? <==> EndingOf(o, w, items).report.result == Success
  {
    if ReachesChecks(o, w) {
      ObservationShape(o, w, items);
      ConcludedErrors(o, Observation(o, w, items));
    } else {
      EndingShape(o, w, items);
      ErrorsForbidSuccess(EndingOf(o, w, items).report);
    }
  }

  /** In submission mode the report that is returned can be submitted exactly when it records
      no error: no aborted run can ever be submitted. */
  lemma SubmittableIffNoErrors(o: Options, w: World, items: seq<ClusterProfile>)
    requires o.runMode == Submission
    ensures var r := EndingOf(o, w, items).report; ReportProblem(r, true).None? <==> r.errors == []
  {
    var r := EndingOf(o, w, items).report;
    if ReachesChecks(o, w) {
      ObservationShape(o, w, items);
      ConcludedErrors(o, Observation(o, w, items));
    } else {
      EndingShape(o, w, items);
    }
    if r.errors != [] {
      ErrorsForbidSubmission(r);
    }
  }

  // ----- what success means -----

  /** The requirement counts: it is required, or its feature is claimed. */
  predicate Counts(req: Requirement, claimed: seq<Feature>) {
    !req.Optional() || req.feature in claimed
  }

  /** The inventory meets the specification in everything that counts, and every such check
      was selected. */
  ghost predicate Conformant(o: Options, s: Snapshot) {
    forall req :: req in CATALOG && Counts(req, o.supportedFeatures) ==>
        Selected(o.filter, req.id) && Satisfied(req.id, s)
  }

  /** What a submission adds: the observed environment is identified. */
  ghost predicate Identified(o: Options, w: World, items: seq<ClusterProfile>) {
    w.version.Some? && w.version.value != "" && items != [] && ObjectsValid(References(items), o.namespace)
  }

  lemma JudgementMeaning(o: Options, w: World, items: seq<ClusterProfile>, req: Requirement)
    requires req in CATALOG
    ensures var s := SnapshotOf(o, w, items);
            Judgement(o.filter, req, s).outcome == Passed <==> Selected(o.filter, req.id) && Satisfied(req.id, s)
  {
    VerdictMeaning(req, SnapshotOf(o, w, items));
  }

  lemma PrecedenceSuccess(tests: seq<TestResult>, supported: seq<Feature>)
    requires AllWellFormed(tests)
    ensures Precedence(tests, supported) == Success
            <==> !NothingGated(tests, supported) && forall t :: t in tests && Gate(t, supported) ==> t.outcome == Passed
  {
  }

  lemma ObservationSuccess(o: Options, w: World, items: seq<ClusterProfile>)
    requires ReachesChecks(o, w)
    ensures Observation(o, w, items).result == Success <==> Conformant(o, SnapshotOf(o, w, items))
  {
    var r, tests, s := Observation(o, w, items), TestsOf(o, w, items), SnapshotOf(o, w, items);
    ObservationShape(o, w, items);
    TestsOfWellFormed(o, w, items);
    SortedClaims(o);
    var supported := r.profiles[0].supportedFeatures;
    assert r.profiles[0] == FinishedProfile(r.profiles[0]);
    SingleProfileResult(r);
    PrecedenceSuccess(tests, supported);
    assert |tests| == |CATALOG| == 11;
    assert Gate(tests[0], supported) && tests[0] in tests;
    forall i | 0 <= i < |CATALOG|
      ensures tests[i] == Judgement(o.filter, CATALOG[i], s)
                && Gate(tests[i], supported) == Counts(CATALOG[i], o.supportedFeatures)
      ensures tests[i].outcome == Passed <==> Selected(o.filter, CATALOG[i].id) && Satisfied(CATALOG[i].id, s)
    {
      JudgementMeaning(o, w, items, CATALOG[i]);
      VerdictWellFormed(CATALOG[i], s);
    }
    EveryTest(tests, supported, o, s);
  }

  lemma EveryTest(tests: seq<TestResult>, supported: seq<Feature>, o: Options, s: Snapshot)
    requires |tests| == |CATALOG|
    requires forall i :: 0 <= i < |CATALOG| ==> Gate(tests[i], supported) == Counts(CATALOG[i], o.supportedFeatures)
    requires forall i :: 0 <= i < |CATALOG| ==>
               (tests[i].outcome == Passed <==> Selected(o.filter, CATALOG[i].id) && Satisfied(CATALOG[i].id, s))
    ensures (forall t :: t in tests && Gate(t, supported) ==> t.outcome == Passed) <==> Conformant(o, s)
  {
    var catalog := CATALOG;
    if forall t :: t in tests && Gate(t, supported) ==> t.outcome == Passed {
      forall req | req in catalog && Counts(req, o.supportedFeatures)
        ensures Selected(o.filter, req.id) && Satisfied(req.id, s)
      {
        var i :| 0 <= i < |catalog| && catalog[i] == req;
        assert tests[i] in tests;
      }
    }
    if Conformant(o, s) {
      forall t | t in tests && Gate(t, supported) ensures t.outcome == Passed {
        var i :| 0 <= i < |tests| && tests[i] == t;
        assert catalog[i] in catalog;
      }
    }
  }

  lemma SingleProfileResult(r: ConformanceReport)
    requires Summarised(r) && |r.profiles| == 1 && r.errors == []
    ensures r.result == Success <==> r.profiles[0].result == Success
  {
    assert r.profiles[0] in r.profiles;
    assert r.profiles[0] == FinishedProfile(r.profiles[0]);
  }

  lemma ObservationSubmittable(o: Options, w: World, items: seq<ClusterProfile>)
    requires ReachesChecks(o, w) && o.runMode == Submission
    requires Observation(o, w, items).result == Success
    ensures ReportProblem(Observation(o, w, items), true).None? <==> Identified(o, w, items)
  {
    var r := Observation(o, w, items);
    ObservationAcceptable(o, w, items);
    SubmissionDecides(r);
    ObservationEnvironment(o, w, items);
    assert References(items) == [] <==> items == [];
    ObservationShape(o, w, items);
    SubmissionOfSuccess(r, o);
  }

  lemma ObservationAcceptable(o: Options, w: World, items: seq<ClusterProfile>)
    requires ReachesChecks(o, w)
    ensures ReportProblem(Observation(o, w, items), false).None?
  {
    ValidOptionsReportable(o);
    TestsOfWellFormed(o, w, items);
    ObservationShape(o, w, items);
    EndedAcceptable(Observation(o, w, items), o, TestsOf(o, w, items));
  }

  lemma SubmissionOfSuccess(r: ConformanceReport, o: Options)
    requires Shaped(r, o) && r.result == Success && o.runMode == Submission && MetadataGate(o).Ready?
    ensures var e := r.environment;
            SubmissionProblem(r).None?
            <==> e.kubernetesVersion != "" && e.observedProfiles != [] && ObjectsValid(e.observedProfiles, o.namespace)
  {
    SubmissionProblemMeaning(r);
    MetadataProblemMeaning(o.implementation, o.suite);
  }

  lemma SubmissionDecides(r: ConformanceReport)
    requires ReportProblem(r, false).None?
    ensures ReportProblem(r, true) == SubmissionProblem(r)
  {
  }

  lemma ObservationEnvironment(o: Options, w: World, items: seq<ClusterProfile>)
    ensures Observation(o, w, items).environment
            == Environment(if w.version.Some? then w.version.value else "",
                           o.namespace, o.clusterManager, o.expectedClusters, References(items))
  {
    assert [] + References(items) == References(items);
  }

  /** Success, exactly: the run reached the checks, everything that counts was selected and
      holds of the observed inventory, and a submission identifies what it observed. */
  lemma SuccessMeaning(options: Options, w: World, items: seq<ClusterProfile>)
    ensures var o := Defaults(options);
            EndingOf(o, w, items).report.result == Success
            <==> && ReachesChecks(o, w)
                 && Conformant(o, SnapshotOf(o, w, items))
                 && (o.runMode == Submission ==> Identified(o, w, items))
  {
    var o := Defaults(options);
    NoErrorIffSuccess(o, w, items);
    if ReachesChecks(o, w) {
      ObservationShape(o, w, items);
      ObservationSuccess(o, w, items);
      if o.runMode == Submission && Observation(o, w, items).result == Success {
        ObservationSubmittable(o, w, items);
      }
    } else {
      EndingShape(o, w, items);
    }
  }

  // ----- the report does not depend on the order of the list -----

  lemma FinishedDate(r: ConformanceReport, date: Stamp)
    ensures Finished(r.(date := date)) == Finished(r).(date := date)
  {
  }

  lemma StoppedDate(r: ConformanceReport, tests: seq<TestResult>, err: Message, date: Stamp)
    requires r.profiles != []
    ensures Aborted(WithTests(r.(date := date), tests), err)
            == Ending(Aborted(WithTests(r, tests), err).report.(date := date), Some(err))
  {
    var filled := WithTests(r, tests);
    assert WithTests(r.(date := date), tests) == filled.(date := date);
    FinishedDate(filled.(errors := filled.errors + [err]), date);
  }

  lemma ObservationDate(o: Options, w: World, now: string, items: seq<ClusterProfile>)
    ensures Observation(o, w.(now := now), items) == Observation(o, w, items).(date := Stamp(now, true))
  {
    var date := Stamp(now, true);
    var r := WithObserved(WithVersion(NewReport(o, w.now), w.version), items);
    var again := WithObserved(WithVersion(NewReport(o, now), w.version), items);
    assert again == r.(date := date);
    FinishedDate(WithTests(r, Judgements(o.filter, SnapshotOf(o, w, items))), date);
  }

  lemma StoppedAlike(o: Options, w: World, now: string, items: seq<ClusterProfile>)
    requires !ReachesChecks(o, w)
    ensures StoppedBase(o, w.(now := now)) == StoppedBase(o, w).(date := Stamp(now, true))
    ensures TestsOf(o, w.(now := now), items) == TestsOf(o, w, items)
    ensures !ReachesChecks(o, w.(now := now)) && StopReason(o, w.(now := now)) == StopReason(o, w)
  {
  }

  lemma StoppedRunDate(o: Options, w: World, now: string, items: seq<ClusterProfile>)
    requires !ReachesChecks(o, w)
    ensures var e, f := EndingOf(o, w, items), EndingOf(o, w.(now := now), items);
            f == Ending(e.report.(date := Stamp(now, true)), e.err)
  {
    StoppedAlike(o, w, now, items);
    StoppedEnding(o, w, items);
    StoppedEnding(o, w.(now := now), items);
    StoppedDate(StoppedBase(o, w), TestsOf(o, w, items), StopReason(o, w), Stamp(now, true));
  }

  lemma ReachedEnding(o: Options, w: World, items: seq<ClusterProfile>)
    requires ReachesChecks(o, w)
    ensures EndingOf(o, w, items) == Concluded(o, Observation(o, w, items))
    ensures Observation(o, w, items).date.wellFormed
  {
  }

  lemma ConcludedRunDate(o: Options, w: World, now: string, items: seq<ClusterProfile>)
    requires ReachesChecks(o, w)
    ensures var e, f := EndingOf(o, w, items), EndingOf(o, w.(now := now), items);
            f == Ending(e.report.(date := Stamp(now, true)), e.err)
  {
    var r := Observation(o, w, items);
    ReachedEnding(o, w, items);
    ReachedEnding(o, w.(now := now), items);
    ObservationDate(o, w, now, items);
    ConcludedDate(o, r, Stamp(now, true));
    assert EndingOf(o, w, items) == Concluded(o, r);
    assert EndingOf(o, w.(now := now), items) == Concluded(o, r.(date := Stamp(now, true)));
  }

  lemma DateIrrelevant(o: Options, w: World, now: string, items: seq<ClusterProfile>)
    ensures var e, f := EndingOf(o, w, items), EndingOf(o, w.(now := now), items);
            f == Ending(e.report.(date := Stamp(now, true)), e.err)
  {
    if ReachesChecks(o, w) {
      ConcludedRunDate(o, w, now, items);
    } else {
      StoppedRunDate(o, w, now, items);
    }
  }

  lemma ConcludedDate(o: Options, r: ConformanceReport, date: Stamp)
    requires r.date.wellFormed && date.wellFormed
    ensures Concluded(o, r.(date := date)) == Ending(Concluded(o, r).report.(date := date), Concluded(o, r).err)
  {
    var s := r.(date := date);
    assert ReportProblem(s, true) == ReportProblem(r, true) by {
      assert SubmissionProblem(s) == SubmissionProblem(r);
    }
    if ReportProblem(r, true).Some? {
      FinishedDate(r.(errors := r.errors + [ReportProblem(r, true).value]), date);
    }
  }

  /** The profiles of one namespace have distinct names. */
  ghost predicate DistinctNames(items: seq<ClusterProfile>) {
    forall i, j :: 0 <= i < j < |items| ==> items[i].name != items[j].name
  }

  lemma NamesDistinguish(items: seq<ClusterProfile>)
    requires DistinctNames(items)
    ensures Distinguishes(ByName, items)
  {
    forall p, q | p in items && q in items && ByName(p, q) && ByName(q, p) ensures p == q {
      StrLeAntisymmetric(p.name, q.name);
      var i :| 0 <= i < |items| && items[i] == p;
      var j :| 0 <= j < |items| && items[j] == q;
    }
  }

  /** The listing in another order of the same profiles. */
  function Relisted(w: World, relisted: seq<ClusterProfile>): World {
    w.(listing := Listed(relisted))
  }

  lemma RelistedObservation(o: Options, w: World, relisted: seq<ClusterProfile>, items: seq<ClusterProfile>)
    requires w.listing.Listed?
    ensures Observation(o, Relisted(w, relisted), items) == Observation(o, w, items)
  {
    assert SnapshotOf(o, Relisted(w, relisted), items) == SnapshotOf(o, w, items);
  }

  lemma RelistedStop(o: Options, w: World, relisted: seq<ClusterProfile>, items: seq<ClusterProfile>)
    requires w.listing.Listed?
    ensures ReachesChecks(o, Relisted(w, relisted)) <==> ReachesChecks(o, w)
    ensures StoppedBase(o, Relisted(w, relisted)) == StoppedBase(o, w)
    ensures !ReachesChecks(o, w) ==> StopReason(o, Relisted(w, relisted)) == StopReason(o, w)
    ensures !ReachesChecks(o, w) ==> TestsOf(o, Relisted(w, relisted), items) == TestsOf(o, w, items)
  {
  }

  /** Apart from the order in which `Run` puts the profiles, the listing does not matter. */
  lemma RelistedEnding(o: Options, w: World, relisted: seq<ClusterProfile>, items: seq<ClusterProfile>)
    requires w.listing.Listed?
    ensures EndingOf(o, Relisted(w, relisted), items) == EndingOf(o, w, items)
  {
    RelistedStop(o, w, relisted, items);
    if ReachesChecks(o, w) {
      ReachedEnding(o, w, items);
      ReachedEnding(o, Relisted(w, relisted), items);
      RelistedObservation(o, w, relisted, items);
    } else {
      StoppedEnding(o, w, items);
      StoppedEnding(o, Relisted(w, relisted), items);
    }
  }

  /** Distinct names leave one order only. */
  lemma OneOrder(items: seq<ClusterProfile>, relisted: seq<ClusterProfile>,
                 first: seq<ClusterProfile>, second: seq<ClusterProfile>)
    requires DistinctNames(items) && multiset(relisted) == multiset(items)
    requires SortOf(ByName, first, items) && SortOf(ByName, second, relisted)
    ensures first == second
  {
    NamesDistinguish(items);
    SameElements(first, items);
    SortUnique(ByName, first, second);
  }

  /** Two runs that differ in their time and in the order in which the API server lists the
      same profiles give the same report but for its date, messages and observed objects
      included, and the same error. */
  lemma ListOrderIrrelevant(o: Options, w: World, now: string, relisted: seq<ClusterProfile>,
                            first: seq<ClusterProfile>, second: seq<ClusterProfile>)
    requires w.listing.Listed? && DistinctNames(w.listing.items)
    requires multiset(relisted) == multiset(w.listing.items)
    requires SortOf(ByName, first, ListedItems(w))
    requires SortOf(ByName, second, ListedItems(Relisted(w.(now := now), relisted)))
    ensures first == second
    ensures EndingOf(o, Relisted(w.(now := now), relisted), second)
            == Ending(EndingOf(o, w, first).report.(date := Stamp(now, true)), EndingOf(o, w, first).err)
  {
    if w.discovery.Discovered? {
      OneOrder(w.listing.items, relisted, first, second);
    } else {
      assert first == [] && second == [];
    }
    RelistedEnding(o, w.(now := now), relisted, first);
    DateIrrelevant(o, w, now, first);
  }
}
