/** The report schema of the conformance suite (conformance/types.go). Closed vocabularies
    are datatypes whose `Other...` constructor stands for any text outside the vocabulary,
    as a submitted report may contain. */
module ConformanceTypes {
  import opened Wrappers

  datatype CheckID =
    | APIAvailability | Namespaced | Representation | ManagerValue | MemberIDValue
    | ManagerPresence | MemberIDPresence | MemberUniqueness
    | HealthyPresence | JoinedPresence | VersionPresence
    | OtherCheck(text: string)

  /** `NoFeature` is the empty text of a required check. */
  datatype Feature =
    | NoFeature
    | ClusterManagerLabel | ControlPlaneHealthy | InventoryMemberID
    | InventoryMemberUniqueness | Joined | KubernetesVersion
    | OtherFeature(text: string)

  datatype Level = Must | Should | May | Informative | OtherLevel(text: string)
  datatype Scope = ScopeAPI | ScopeManager | ScopeInventory | OtherScope(text: string)

  /** A requirement's prose and its place in KEP-4322, both constants of the catalog. */
  datatype Prose = CatalogProse(id: CheckID) | OtherProse(text: string)
  datatype Anchor = Top | Organization | Relationship | ClusterManagerSection | UniquenessSection | Conditions | Version
  datatype Reference = SpecRef(anchor: Anchor) | OtherRef(text: string)

  datatype Requirement = Requirement(
    id: CheckID, description: Prose, level: Level, feature: Feature, scope: Scope, ref: Reference)
  {
    /** Applies only to implementations that claim its feature. */
    predicate Optional() {
      feature != NoFeature
    }
  }

  datatype Outcome = Passed | Failed | Skipped | Unknown | NotSupported | OtherOutcome(text: string)
  datatype Result = Success | Failure | Partial | Undetermined | OtherResult(text: string)

  /** The texts of check results and of errors: which one it is and what it mentions.
      Only `NoMessage` and a `FreeText` can be blank; every other text starts with a word. */
  datatype Message =
    | NoMessage
    | FreeText(text: string)
    // checks.go
    | APINotServed | DiscoveryFailed(text: string) | NoResources | ResourceNotServed | ClusterScoped
    | CannotList(text: string) | NoManagedProfile | CountMismatch(expected: int, observed: nat) | NoProfiles
    | DuplicatedID(memberID: string, holders: seq<string>) | MissingIDs(names: seq<string>)
    | ManagerMismatch(name: string) | EmptyMemberID(name: string) | NotReportedOn(names: seq<string>)
    // suite.go
    | ExcludedByFilter | NoChecksSelected | InvalidFilter(text: string)
    | NamespaceRequired | NegativeExpected | TimeoutNotPositive | UnknownRunMode | UnknownAPI | UnknownProfile
    | UnknownFeature(feature: Feature) | DuplicateFeature(feature: Feature) | UniquenessNeedsMemberID
    | UnknownFormat | FilteredSubmission | ContextEnded | NamespaceUnreadable(text: string)
    | NotSuccessful(result: Result)
    // report.go
    | MetadataProblems(fields: seq<MetadataField>) | UnknownSchema | InvalidDate | UnknownCatalog
    | UnknownAPIRevision | ProfileCount | UnknownProfileOrRole | IncompleteCatalog(observed: nat)
    | DuplicateCheck(id: CheckID) | ModifiedRequirement(id: CheckID) | InvalidOutcome(id: CheckID)
    | ReasonRequired(id: CheckID) | RequiredNotSupported(id: CheckID) | SummaryMismatch | OverallMismatch
    | NotASubmission | NoKubernetesVersion | NotAcceptable(result: Result) | NoObservedProfiles
    | InvalidObject(object: ObjectReference)

  datatype MetadataField =
    | ModeField | OrganizationField | ProjectField | VersionField | SuiteVersionField
    | RevisionField | DirtyField | SuiteRevisionField | SuiteDirtyField
    | URLField | ReproductionField | ContactField | ContactEntryField

  datatype TestResult = TestResult(requirement: Requirement, outcome: Outcome, message: Message)

  datatype Statistics = Statistics(
    passed: int, failed: int, skipped: int, unknown: int, notSupported: int, total: int)

  datatype RunMode = Development | Submission | UnsetMode | OtherMode(text: string)
  datatype ProfileName = ProducerProfile | OtherProfile(text: string)
  datatype APIName = ClusterProfileAPI | OtherAPI(text: string)
  datatype Role = Producer | OtherRole(text: string)

  datatype ProfileReport = ProfileReport(
    name: ProfileName, api: APIName, role: Role, supportedFeatures: seq<Feature>,
    result: Result, statistics: Statistics, tests: seq<TestResult>)

  /** A text together with what the library parser says of it: an RFC 3339 time for a date,
      an absolute HTTP(S) URL for a link. */
  datatype Stamp = Stamp(text: string, wellFormed: bool)

  datatype Source = Source(version: string, revision: string, dirty: bool)
  datatype Implementation = Implementation(
    organization: string, project: string, source: Source, mode: string,
    url: Stamp, contact: seq<string>, reproduction: Stamp)

  datatype Digest = CatalogDigest | OtherDigest(text: string)
  datatype SuiteInfo = SuiteInfo(source: Source, catalogDigest: Digest)

  /** The pinned revision of KEP-4322, the pinned revision of the API types, or another one. */
  datatype Revision = PinnedSpecification | PinnedTypes | OtherRevision(text: string)
  datatype GroupVersion = V1alpha2 | OtherGroupVersion(text: string)

  function RevisionText(r: Revision): string {
    match r
    case PinnedSpecification => "3300d87b960c22051c66f1d1072e424a5cda5b5d"
    case PinnedTypes => "dc460e8ca90ddc100fb5c7ba3ad082f11b200537"
    case OtherRevision(text) => text
  }

  datatype Specification = Specification(revision: Revision, url: Reference)
  datatype APIInfo = APIInfo(groupVersion: GroupVersion, revision: Revision)
  datatype Schema = ReportSchema | OtherSchema(apiVersion: string, kind: string)

  datatype ObjectReference = ObjectReference(namespace: string, name: string, uid: string, resourceVersion: string)

  datatype Environment = Environment(
    kubernetesVersion: string, inventoryNamespace: string, clusterManager: string,
    expectedClusters: int, observedProfiles: seq<ObjectReference>)

  datatype ConformanceReport = ConformanceReport(
    schema: Schema, date: Stamp, runMode: RunMode, implementation: Implementation, suite: SuiteInfo,
    specification: Specification, api: APIInfo, environment: Environment,
    profiles: seq<ProfileReport>, result: Result, errors: seq<Message>)
}
