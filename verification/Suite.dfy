/** The runner (conformance/suite.go): one observation of one inventory, judged and reported. */
module Suite {
  import opened ConformanceTypes
  import opened Wrappers
  import opened Catalog
  import opened Checks
  import opened Report
  import opened Ordering

  datatype Format = HTML | YAML | OtherFormat(text: string)

  /** A label filter, reduced to what it says of the catalog: it does not parse, or it selects
      some of the checks. The empty text selects all of them. */
  datatype TestFilter = NoFilter | Malformed(error: string) | Selecting(ids: set<CheckID>)

  datatype Options = Options(
    namespace: string, clusterManager: string, expectedClusters: int, apis: seq<APIName>,
    profiles: seq<ProfileName>, supportedFeatures: seq<Feature>, filter: TestFilter, runMode: RunMode,
    implementation: Implementation, suite: Source, formats: seq<Format>, timeout: int)

  datatype NamespaceRead = Readable | Forbidden | ReadError(text: string)
  datatype Discovery = Discovered(resources: Option<seq<APIResource>>) | DiscoveryError(error: APIError)
  datatype Listing = Listed(items: seq<ClusterProfile>) | ListError(error: APIError)

  /** Everything the run gets from outside: the clock and the answers of the API server. */
  datatype World = World(
    now: string, connectError: Option<string>, version: Option<string>, contextEnded: bool,
    namespaceRead: NamespaceRead, discovery: Discovery, listing: Listing)

  const THIRTY_SECONDS := 30_000_000_000

  function Defaults(o: Options): Options {
    o.(runMode := if o.runMode == UnsetMode then Development else o.runMode,
       timeout := if o.timeout == 0 then THIRTY_SECONDS else o.timeout,
       implementation :=
         o.implementation.(mode := if o.implementation.mode == "" then "default" else o.implementation.mode),
       suite := o.suite.(version := if o.suite.version == "" then "development" else o.suite.version),
       formats := if o.formats == [] then [HTML] else o.formats)
  }

  // ----- validateOptions -----

  predicate OtherIn<T(==)>(s: seq<T>, known: T) {
    exists x :: x in s && x != known
  }

  function OptionsProblem(o: Options): Option<Message> {
    if InventoryProblem(o.namespace, o.expectedClusters).Some? then InventoryProblem(o.namespace, o.expectedClusters)
    else if o.timeout <= 0 then Some(TimeoutNotPositive)
    else if RunModeProblem(o.runMode).Some? then RunModeProblem(o.runMode)
    else if OtherIn(o.apis, ClusterProfileAPI) then Some(UnknownAPI)
    else if OtherIn(o.profiles, ProducerProfile) then Some(UnknownProfile)
    else if FeaturesProblem(o.supportedFeatures, {}).Some? then FeaturesProblem(o.supportedFeatures, {})
    else if exists f :: f in o.formats && f.OtherFormat? then Some(UnknownFormat)
    else if o.runMode == Submission && !o.filter.NoFilter? then Some(FilteredSubmission)
    else None
  }

  method ValidateOptions(o: Options) returns (err: Option<Message>)
    ensures err == OptionsProblem(o)
  {
    err := InventoryProblem(o.namespace, o.expectedClusters);
    if err.Some? {
      return;
    }
    if o.timeout <= 0 {
      return Some(TimeoutNotPositive);
    }
    err := RunModeProblem(o.runMode);
    if err.Some? {
      return;
    }
    for i := 0 to |o.apis|
      invariant forall j :: 0 <= j < i ==> o.apis[j] == ClusterProfileAPI
    {
      if o.apis[i] != ClusterProfileAPI {
        assert o.apis[i] in o.apis;
        return Some(UnknownAPI);
      }
    }
    for i := 0 to |o.profiles|
      invariant forall j :: 0 <= j < i ==> o.profiles[j] == ProducerProfile
    {
      if o.profiles[i] != ProducerProfile {
        assert o.profiles[i] in o.profiles;
        return Some(UnknownProfile);
      }
    }
    err := ValidateFeatures(o.supportedFeatures);
    if err.Some? {
      return;
    }
    for i := 0 to |o.formats|
      invariant forall j :: 0 <= j < i ==> !o.formats[j].OtherFormat?
    {
      if o.formats[i].OtherFormat? {
        return Some(UnknownFormat);
      }
    }
    if o.runMode == Submission && !o.filter.NoFilter? {
      return Some(FilteredSubmission);
    }
    err := None;
  }

  // ----- the report under construction -----

  function FeatureText(f: Feature): string {
    match f
    case NoFeature => ""
    case ClusterManagerLabel => "ClusterManagerLabel"
    case ControlPlaneHealthy => "ControlPlaneHealthy"
    case InventoryMemberID => "InventoryMemberID"
    case InventoryMemberUniqueness => "InventoryMemberUniqueness"
    case Joined => "Joined"
    case KubernetesVersion => "KubernetesVersion"
    case OtherFeature(text) => text
  }

  /** The order of the names' texts; only a name outside the vocabulary that is none could tie. */
  predicate FeatureLe(a: Feature, b: Feature) {
    if FeatureText(a) == FeatureText(b) then a == b || !a.OtherFeature? else StrLe(FeatureText(a), FeatureText(b))
  }

  lemma KnownTexts(a: Feature, b: Feature)
    requires FeatureText(a) == FeatureText(b) && !a.OtherFeature? && !b.OtherFeature?
    ensures a == b
  {
    assert |FeatureText(a)| == |FeatureText(b)|;
    if |FeatureText(a)| > 1 {
      assert FeatureText(a)[1] == FeatureText(b)[1];
    }
  }

  lemma FeatureLeTotal(a: Feature, b: Feature)
    ensures FeatureLe(a, b) || FeatureLe(b, a)
    ensures FeatureLe(a, b) && FeatureLe(b, a) ==> a == b
  {
    if FeatureText(a) != FeatureText(b) {
      StrLeTotal(FeatureText(a), FeatureText(b));
      if FeatureLe(a, b) && FeatureLe(b, a) {
        StrLeAntisymmetric(FeatureText(a), FeatureText(b));
        assert false;
      }
    } else if !a.OtherFeature? && !b.OtherFeature? {
      KnownTexts(a, b);
    }
  }

  lemma FeatureLeTransitive(a: Feature, b: Feature, c: Feature)
    requires FeatureLe(a, b) && FeatureLe(b, c)
    ensures FeatureLe(a, c)
  {
    var x, y, z := FeatureText(a), FeatureText(b), FeatureText(c);
    if x == z {
      if x != y {
        StrLeAntisymmetric(x, y);
        assert false;
      }
    } else if x != y && y != z {
      StrLeTransitive(x, y, z);
    }
  }

  lemma FeatureLeOrder()
    ensures TotalPreorder(FeatureLe)
    ensures forall a, b :: FeatureLe(a, b) && FeatureLe(b, a) ==> a == b
  {
    forall a, b ensures (FeatureLe(a, b) || FeatureLe(b, a)) && (FeatureLe(a, b) && FeatureLe(b, a) ==> a == b) {
      FeatureLeTotal(a, b);
    }
    forall a, b, c | FeatureLe(a, b) && FeatureLe(b, c) ensures FeatureLe(a, c) {
      FeatureLeTransitive(a, b, c);
    }
  }

  function NewReport(o: Options, now: string): ConformanceReport {
    ConformanceReport(
      ReportSchema, Stamp(now, true), o.runMode, o.implementation, SuiteInfo(o.suite, CatalogDigest),
      Specification(PinnedSpecification, SpecRef(Top)), APIInfo(V1alpha2, PinnedTypes),
      Environment("", o.namespace, o.clusterManager, o.expectedClusters, []),
      [ProfileReport(ProducerProfile, ClusterProfileAPI, Producer, Sorted(FeatureLe, o.supportedFeatures),
                     OtherResult(""), Statistics(0, 0, 0, 0, 0, 0), [])],
      Undetermined, [])
  }

  ghost function FinishedProfile(p: ProfileReport): ProfileReport {
    p.(statistics := Tally(p.tests), result := Precedence(p.tests, p.supportedFeatures))
  }

  ghost function FinishedProfiles(ps: seq<ProfileReport>): seq<ProfileReport> {
    seq(|ps|, i requires 0 <= i < |ps| => FinishedProfile(ps[i]))
  }

  ghost function Finished(r: ConformanceReport): ConformanceReport {
    var ps := FinishedProfiles(r.profiles);
    r.(profiles := ps, result := Rollup(ps, r.errors))
  }

  function WithTests(r: ConformanceReport, tests: seq<TestResult>): ConformanceReport
    requires r.profiles != []
  {
    r.(profiles := r.profiles[0 := r.profiles[0].(tests := r.profiles[0].tests + tests)])
  }

  /** One test per requirement, all with the same outcome and reason. */
  function Filled(state: Outcome, message: Message): seq<TestResult> {
    seq(|CATALOG|, i requires 0 <= i < |CATALOG| => TestResult(CATALOG[i], state, message))
  }

  datatype Ending = Ending(report: ConformanceReport, err: Option<Message>)

  ghost function Aborted(r: ConformanceReport, err: Message): Ending {
    Ending(Finished(r.(errors := r.errors + [err])), Some(err))
  }

  ghost function SetupFailed(r: ConformanceReport, err: Message): Ending
    requires r.profiles != []
  {
    Aborted(WithTests(r, Filled(Unknown, err)), err)
  }

  /** The report that `Run` builds and the closures that write to it. */
  class Observer {
    var report: ConformanceReport

    constructor (o: Options, now: string)
      ensures report == NewReport(o, now)
    {
      FeatureLeOrder();
      var supported := SortFunc(o.supportedFeatures, FeatureLe);
      SortIsSorted(FeatureLe, supported, o.supportedFeatures);
      report := NewReport(o, now).(profiles := [
        ProfileReport(ProducerProfile, ClusterProfileAPI, Producer, supported,
                      OtherResult(""), Statistics(0, 0, 0, 0, 0, 0), [])]);
    }

    method Append(t: TestResult)
      requires report.profiles != []
      modifies this
      ensures report == WithTests(old(report), [t])
    {
      var p := report.profiles[0];
      report := report.(profiles := report.profiles[0 := p.(tests := p.tests + [t])]);
    }

    method FillAll(state: Outcome, message: Message)
      requires report.profiles != []
      modifies this
      ensures report == WithTests(old(report), Filled(state, message))
    {
      var tests := Filled(state, message);
      WithNoTests(report);
      for i := 0 to |CATALOG|
        invariant report.profiles != []
        invariant report == WithTests(old(report), tests[..i])
      {
        Append(TestResult(CATALOG[i], state, message));
        PrefixNext(tests, i);
        WithTestsTwice(old(report), tests[..i], [tests[i]]);
      }
      assert tests[..|CATALOG|] == tests;
    }

    method Finish()
      modifies this
      ensures report == Finished(old(report))
    {
      ghost var done := FinishedProfiles(report.profiles);
      OverwriteEnds(done, report.profiles);
      for i := 0 to |report.profiles|
        invariant report == old(report).(profiles := done[..i] + old(report).profiles[i..])
      {
        var p := report.profiles[i];
        var stats, result := Summarize(p.tests, p.supportedFeatures);
        OverwriteNext(done, old(report).profiles, i);
        report := report.(profiles := report.profiles[i := p.(statistics := stats, result := result)]);
      }
      var result := Overall(report.profiles, report.errors);
      report := report.(result := result);
    }

    method Abort(err: Message)
      modifies this
      ensures report == Aborted(old(report), err).report
    {
      report := report.(errors := report.errors + [err]);
      Finish();
    }

    method FailSetup(err: Message)
      requires report.profiles != []
      modifies this
      ensures report == SetupFailed(old(report), err).report
    {
      FillAll(Unknown, err);
      Abort(err);
    }
  }

  lemma WithNoTests(r: ConformanceReport)
    requires r.profiles != []
    ensures WithTests(r, []) == r
  {
    assert r.profiles[0].tests + [] == r.profiles[0].tests;
    assert r.profiles[0 := r.profiles[0]] == r.profiles;
  }

  lemma WithTestsTwice(r: ConformanceReport, a: seq<TestResult>, b: seq<TestResult>)
    requires r.profiles != []
    ensures WithTests(WithTests(r, a), b) == WithTests(r, a + b)
  {
    assert r.profiles[0].tests + a + b == r.profiles[0].tests + (a + b);
  }

  // ----- the observation -----

  predicate ByName(a: ClusterProfile, b: ClusterProfile) {
    StrLe(a.name, b.name)
  }

  lemma ByNameOrder()
    ensures TotalPreorder(ByName)
  {
    StrLeTotalPreorder();
  }

  predicate Selected(filter: TestFilter, id: CheckID) {
    match filter
    case NoFilter => true
    case Selecting(ids) => id in ids
    case Malformed(_) => false
  }

  predicate NothingSelected(filter: TestFilter) {
    forall req :: req in CATALOG ==> !Selected(filter, req.id)
  }

  /** The profiles of the manager under test, or all of them when none is named. */
  function Managed(profiles: seq<ClusterProfile>, manager: string): seq<ClusterProfile> {
    if profiles == [] then []
    else
      var kept := if manager != "" && profiles[0].manager != manager then [] else [profiles[0]];
      kept + Managed(profiles[1..], manager)
  }

  function ReferenceTo(p: ClusterProfile): ObjectReference {
    ObjectReference(p.namespace, p.name, p.uid, p.resourceVersion)
  }

  function References(profiles: seq<ClusterProfile>): seq<ObjectReference> {
    seq(|profiles|, i requires 0 <= i < |profiles| => ReferenceTo(profiles[i]))
  }

  /** What the list call delivers: nothing when discovery or the list failed. */
  function ListedItems(w: World): seq<ClusterProfile> {
    if w.discovery.Discovered? && w.listing.Listed? then w.listing.items else []
  }

  /** The snapshot, `items` being the listed profiles in name order. */
  function SnapshotOf(o: Options, w: World, items: seq<ClusterProfile>): Snapshot {
    var apiError := if w.discovery.DiscoveryError? then Some(w.discovery.error) else None;
    Snapshot(
      if w.discovery.Discovered? then w.discovery.resources else None,
      apiError, items, Managed(items, o.clusterManager),
      if apiError.Some? then apiError else if w.listing.ListError? then Some(w.listing.error) else None,
      o.expectedClusters)
  }

  ghost function Judgement(filter: TestFilter, req: Requirement, s: Snapshot): TestResult {
    if Selected(filter, req.id) then Verdict(req, s) else TestResult(req, Skipped, ExcludedByFilter)
  }

  ghost function Judgements(filter: TestFilter, s: Snapshot): seq<TestResult> {
    seq(|CATALOG|, i requires 0 <= i < |CATALOG| => Judgement(filter, CATALOG[i], s))
  }

  function WithVersion(r: ConformanceReport, version: Option<string>): ConformanceReport {
    if version.None? then r else r.(environment := r.environment.(kubernetesVersion := version.value))
  }

  function WithObserved(r: ConformanceReport, items: seq<ClusterProfile>): ConformanceReport {
    r.(environment := r.environment.(observedProfiles := r.environment.observedProfiles + References(items)))
  }

  /** Why a run stops before it reads the inventory, in the order the source looks. */
  datatype Setup = Ready | Stopped(err: Message)

  function BeforeConnecting(o: Options): Setup {
    if OptionsProblem(o).Some? then Stopped(OptionsProblem(o).value)
    else if o.filter.Malformed? then Stopped(InvalidFilter(o.filter.error))
    else Ready
  }

  function MetadataGate(o: Options): Setup {
    if o.runMode == Submission && MetadataProblem(o.implementation, o.suite).Some?
    then Stopped(MetadataProblem(o.implementation, o.suite).value)
    else Ready
  }

  function Reading(w: World): Setup {
    if w.contextEnded then Stopped(ContextEnded)
    else if w.namespaceRead.ReadError? then Stopped(NamespaceUnreadable(w.namespaceRead.text))
    else Ready
  }

  /** The end of a run whose setup succeeded. */
  ghost function Concluded(o: Options, r: ConformanceReport): Ending {
    if o.runMode == Submission && ReportProblem(r, true).Some? then Aborted(r, ReportProblem(r, true).value)
    else if r.result != Success then Ending(r, Some(NotSuccessful(r.result)))
    else Ending(r, None)
  }

  /** The report of a run that read the inventory, before the final submission check. */
  ghost function Observation(o: Options, w: World, items: seq<ClusterProfile>): ConformanceReport {
    var r := WithObserved(WithVersion(NewReport(o, w.now), w.version), items);
    Finished(WithTests(r, Judgements(o.filter, SnapshotOf(o, w, items))))
  }

  /** What a run with these (defaulted) options ends with. */
  ghost function EndingOf(o: Options, w: World, items: seq<ClusterProfile>): Ending {
    var r := NewReport(o, w.now);
    if BeforeConnecting(o).Stopped? then SetupFailed(r, BeforeConnecting(o).err)
    else if NothingSelected(o.filter) then Aborted(WithTests(r, Filled(Skipped, ExcludedByFilter)), NoChecksSelected)
    else if MetadataGate(o).Stopped? then SetupFailed(r, MetadataGate(o).err)
    else if w.connectError.Some? then SetupFailed(r, FreeText(w.connectError.value))
    else if Reading(w).Stopped? then SetupFailed(WithVersion(r, w.version), Reading(w).err)
    else Concluded(o, Observation(o, w, items))
  }

  /** `Run`: `items` is the listed inventory in some order that sorting by name may give. */
  method Run(options: Options, w: World) returns (report: ConformanceReport, err: Option<Message>)
    ensures exists items :: SortOf(ByName, items, ListedItems(w))
              && Ending(report, err) == EndingOf(Defaults(options), w, items)
  {
    ByNameOrder();
    ghost var items := Sorted(ByName, ListedItems(w));
    SortedIsSort(ByName, ListedItems(w));
    var o := Defaults(options);
    var observer := new Observer(o, w.now);
    var stop: Option<Message> := ValidateOptions(o);
    if stop.None? && o.filter.Malformed? {
      stop := Some(InvalidFilter(o.filter.error));
    }
    if stop.Some? {
      observer.FailSetup(stop.value);
      assert Ending(observer.report, stop) == EndingOf(o, w, items);
      return observer.report, stop;
    }
    if NothingSelected(o.filter) {
      observer.FillAll(Skipped, ExcludedByFilter);
      observer.Abort(NoChecksSelected);
      assert Ending(observer.report, Some(NoChecksSelected)) == EndingOf(o, w, items);
      return observer.report, Some(NoChecksSelected);
    }
    if o.runMode == Submission {
      stop := ValidateMetadata(o.implementation, o.suite);
      if stop.Some? {
        observer.FailSetup(stop.value);
        assert Ending(observer.report, stop) == EndingOf(o, w, items);
        return observer.report, stop;
      }
    }
    if w.connectError.Some? {
      stop := Some(FreeText(w.connectError.value));
      observer.FailSetup(stop.value);
      assert Ending(observer.report, stop) == EndingOf(o, w, items);
      return observer.report, stop;
    }
    items, err := RunConnected(observer, o, w);
    report := observer.report;
    assert Ending(report, err) == EndingOf(o, w, items);
  }

  /** The run from the connection on. */
  method RunConnected(observer: Observer, o: Options, w: World)
    returns (ghost items: seq<ClusterProfile>, err: Option<Message>)
    requires observer.report == NewReport(o, w.now)
    modifies observer
    ensures SortOf(ByName, items, ListedItems(w))
    ensures Ending(observer.report, err) ==
            if Reading(w).Stopped? then SetupFailed(WithVersion(NewReport(o, w.now), w.version), Reading(w).err)
            else Concluded(o, Observation(o, w, items))
  {
    ByNameOrder();
    items := Sorted(ByName, ListedItems(w));
    SortedIsSort(ByName, ListedItems(w));
    observer.report := WithVersion(observer.report, w.version);
    err := None;
    if w.contextEnded {
      err := Some(ContextEnded);
    } else if w.namespaceRead.ReadError? {
      err := Some(NamespaceUnreadable(w.namespaceRead.text));
    }
    if err.Some? {
      observer.FailSetup(err.value);
      return;
    }
    items := Observe(observer, o, w);
    err := Conclude(observer, o);
  }

  /** Takes the snapshot and judges it. */
  method Observe(observer: Observer, o: Options, w: World) returns (ghost items: seq<ClusterProfile>)
    requires observer.report == WithVersion(NewReport(o, w.now), w.version)
    modifies observer
    ensures SortOf(ByName, items, ListedItems(w))
    ensures observer.report == Observation(o, w, items)
  {
    ByNameOrder();
    var profiles := SortFunc(ListedItems(w), ByName);
    items := profiles;
    var s := SnapshotOf(o, w, profiles);
    RecordObserved(observer, profiles);
    JudgeAll(observer, o.filter, s);
    observer.Finish();
  }

  method Conclude(observer: Observer, o: Options) returns (err: Option<Message>)
    modifies observer
    ensures Ending(observer.report, err) == Concluded(o, old(observer.report))
  {
    if o.runMode == Submission {
      err := ValidateReport(observer.report, true);
      if err.Some? {
        observer.Abort(err.value);
        return;
      }
    }
    if observer.report.result != Success {
      return Some(NotSuccessful(observer.report.result));
    }
    err := None;
  }

  method RecordObserved(observer: Observer, profiles: seq<ClusterProfile>)
    modifies observer
    ensures observer.report == WithObserved(old(observer.report), profiles)
  {
    var all := References(profiles);
    ghost var before := observer.report.environment.observedProfiles;
    for i := 0 to |profiles|
      invariant var e := old(observer.report).environment.(observedProfiles := before + all[..i]);
                observer.report == old(observer.report).(environment := e)
    {
      var env := observer.report.environment;
      var observed := env.observedProfiles + [ReferenceTo(profiles[i])];
      observer.report := observer.report.(environment := env.(observedProfiles := observed));
      PrefixNext(all, i);
    }
    assert all[..|profiles|] == all;
  }

  method JudgeAll(observer: Observer, filter: TestFilter, s: Snapshot)
    requires observer.report.profiles != []
    modifies observer
    ensures observer.report == WithTests(old(observer.report), Judgements(filter, s))
  {
    ghost var tests := Judgements(filter, s);
    WithNoTests(observer.report);
    for i := 0 to |CATALOG|
      invariant observer.report.profiles != []
      invariant observer.report == WithTests(old(observer.report), tests[..i])
    {
      var req := CATALOG[i];
      var result := TestResult(req, Skipped, ExcludedByFilter);
      if Selected(filter, req.id) {
        result := Check(req, s);
      }
      observer.Append(result);
      PrefixNext(tests, i);
      WithTestsTwice(old(observer.report), tests[..i], [tests[i]]);
    }
    assert tests[..|CATALOG|] == tests;
  }
}
