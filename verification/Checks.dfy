/** The verdict on each requirement (conformance/checks.go). */
module Checks {
  import opened ConformanceTypes
  import opened Wrappers
  import opened Catalog
  import opened Ordering

  datatype LabelKey = ManagerKey | MemberIDKey | OtherKey(text: string)
  datatype ConditionType = HealthyCondition | JoinedCondition | OtherCondition(text: string)
  datatype Condition = Condition(kind: ConditionType, status: string, reason: string, message: string)

  /** What the suite and the seeder read and write of a ClusterProfile. */
  datatype ClusterProfile = ClusterProfile(
    namespace: string, name: string, uid: string, resourceVersion: string,
    labels: map<LabelKey, string>, manager: string,
    conditions: seq<Condition>, kubernetesVersion: string)
  {
    /** `types.NamespacedName{...}.String()` */
    function FullName(): string {
      namespace + "/" + name
    }

    /** A missing label reads as the empty text. */
    function MemberID(): string {
      if MemberIDKey in labels then labels[MemberIDKey] else ""
    }

    predicate HasCondition(kind: ConditionType) {
      exists c :: c in conditions && c.kind == kind
    }
  }

  datatype ResourceName = ClusterProfiles | OtherResource(text: string)
  datatype APIResource = APIResource(name: ResourceName, namespaced: bool)
  datatype APIError = APIError(text: string, notFound: bool)

  datatype Snapshot = Snapshot(
    resources: Option<seq<APIResource>>, apiError: Option<APIError>,
    profiles: seq<ClusterProfile>, managed: seq<ClusterProfile>,
    profileError: Option<APIError>, expected: int)

  // ----- API scope -----

  /** The first `clusterprofiles` resource of a discovery answer. */
  function FirstServed(resources: seq<APIResource>): Option<APIResource> {
    if resources == [] then None
    else if resources[0].name == ClusterProfiles then Some(resources[0])
    else FirstServed(resources[1..])
  }

  function CheckAPI(req: Requirement, s: Snapshot): TestResult {
    if s.apiError.Some? then
      if s.apiError.value.notFound then TestResult(req, Failed, APINotServed)
      else TestResult(req, Unknown, DiscoveryFailed(s.apiError.value.text))
    else if s.resources.None? then
      TestResult(req, Unknown, NoResources)
    else
      var served := FirstServed(s.resources.value);
      if served.None? then TestResult(req, Failed, ResourceNotServed)
      else if req.id == Namespaced && !served.value.namespaced then TestResult(req, Failed, ClusterScoped)
      else if req.id == APIAvailability && s.profileError.Some?
        then TestResult(req, Unknown, CannotList(s.profileError.value.text))
      else TestResult(req, Passed, NoMessage)
  }

  // ----- fields -----

  /** A label that is present with a wrong value. */
  function Violation(id: CheckID, p: ClusterProfile): Option<Message> {
    if id == ManagerValue && ManagerKey in p.labels && p.labels[ManagerKey] != p.manager
      then Some(ManagerMismatch(p.FullName()))
    else if id == MemberIDValue && MemberIDKey in p.labels && p.MemberID() == "" then Some(EmptyMemberID(p.FullName()))
    else None
  }

  /** The capability a presence check looks for is not reported. */
  predicate Lacks(id: CheckID, p: ClusterProfile) {
    match id
    case ManagerPresence => ManagerKey !in p.labels
    case MemberIDPresence => p.MemberID() == ""
    case HealthyPresence => !p.HasCondition(HealthyCondition)
    case JoinedPresence => !p.HasCondition(JoinedCondition)
    case VersionPresence => p.kubernetesVersion == ""
    case _ => false
  }

  function FirstViolation(id: CheckID, profiles: seq<ClusterProfile>): Option<Message> {
    if profiles == [] then None
    else if Violation(id, profiles[0]).Some? then Violation(id, profiles[0])
    else FirstViolation(id, profiles[1..])
  }

  /** The names of the profiles that lack the capability, in list order. */
  function LackingNames(id: CheckID, profiles: seq<ClusterProfile>): seq<string> {
    if profiles == [] then []
    else
      var last := profiles[|profiles| - 1];
      LackingNames(id, profiles[..|profiles| - 1]) + if Lacks(id, last) then [last.FullName()] else []
  }

  function FieldsVerdict(req: Requirement, profiles: seq<ClusterProfile>): TestResult {
    var violation := FirstViolation(req.id, profiles);
    var missing := LackingNames(req.id, profiles);
    if violation.Some? then TestResult(req, Failed, violation.value)
    else if missing != [] then
      TestResult(req, if req.level == Should then Failed else NotSupported, NotReportedOn(Sorted(StrLe, missing)))
    else TestResult(req, Passed, NoMessage)
  }

  method CheckFields(req: Requirement, profiles: seq<ClusterProfile>) returns (r: TestResult)
    ensures r == FieldsVerdict(req, profiles)
  {
    var missing := [];
    for i := 0 to |profiles|
      invariant missing == LackingNames(req.id, profiles[..i])
      invariant FirstViolation(req.id, profiles) == FirstViolation(req.id, profiles[i..])
    {
      var p := profiles[i];
      var name := p.FullName();
      assert profiles[i..][0] == p && profiles[i..][1..] == profiles[i + 1..];
      assert profiles[..i + 1][..i] == profiles[..i];
      match req.id {
        case ManagerValue =>
          if ManagerKey in p.labels && p.labels[ManagerKey] != p.manager {
            return TestResult(req, Failed, ManagerMismatch(name));
          }
        case MemberIDValue =>
          if MemberIDKey in p.labels && p.MemberID() == "" {
            return TestResult(req, Failed, EmptyMemberID(name));
          }
        case ManagerPresence =>
          if ManagerKey !in p.labels { missing := missing + [name]; }
        case MemberIDPresence =>
          if p.MemberID() == "" { missing := missing + [name]; }
        case HealthyPresence =>
          if !p.HasCondition(HealthyCondition) { missing := missing + [name]; }
        case JoinedPresence =>
          if !p.HasCondition(JoinedCondition) { missing := missing + [name]; }
        case VersionPresence =>
          if p.kubernetesVersion == "" { missing := missing + [name]; }
        case _ =>
      }
    }
    assert profiles[..|profiles|] == profiles && profiles[|profiles|..] == [];
    if |missing| > 0 {
      StrLeTotalPreorder();
      var sorted := SortFunc(missing, StrLe);
      StringSortUnique(sorted, missing);
      var state := if req.level == Should then Failed else NotSupported;
      return TestResult(req, state, NotReportedOn(sorted));
    }
    r := TestResult(req, Passed, NoMessage);
  }

  // ----- uniqueness -----

  /** The names of the profiles with this member ID, in list order. */
  function Holders(profiles: seq<ClusterProfile>, id: string): seq<string> {
    if profiles == [] then []
    else
      var last := profiles[|profiles| - 1];
      Holders(profiles[..|profiles| - 1], id) + if last.MemberID() == id then [last.FullName()] else []
  }

  predicate Duplicated(profiles: seq<ClusterProfile>, id: string) {
    id != "" && |Holders(profiles, id)| > 1
  }

  ghost predicate LeastDuplicated(profiles: seq<ClusterProfile>, id: string) {
    Duplicated(profiles, id) && forall other :: Duplicated(profiles, other) ==> StrLe(id, other)
  }

  lemma {:induction false} HolderExists(profiles: seq<ClusterProfile>, id: string)
    ensures Holders(profiles, id) != [] <==> exists i :: 0 <= i < |profiles| && profiles[i].MemberID() == id
  {
    if profiles != [] {
      HolderExists(profiles[..|profiles| - 1], id);
    }
  }

  lemma {:induction false} HolderTwice(profiles: seq<ClusterProfile>, id: string)
    ensures |Holders(profiles, id)| > 1 <==>
              exists i, j :: 0 <= i < j < |profiles| && profiles[i].MemberID() == profiles[j].MemberID() == id
  {
    if profiles != [] {
      var n := |profiles| - 1;
      HolderTwice(profiles[..n], id);
      HolderExists(profiles[..n], id);
      if i, j :| 0 <= i < j < |profiles| && profiles[i].MemberID() == profiles[j].MemberID() == id {
        assert profiles[..n][i].MemberID() == id;
        assert j < n ==> profiles[..n][j].MemberID() == id;
      }
    }
  }

  lemma LeastDuplicatedExists(profiles: seq<ClusterProfile>)
    requires exists id :: Duplicated(profiles, id)
    ensures exists id :: LeastDuplicated(profiles, id)
  {
    var ids := set p | p in profiles :: p.MemberID();
    var duplicates := set id | id in ids && Duplicated(profiles, id);
    forall id | Duplicated(profiles, id) ensures id in duplicates {
      HolderExists(profiles, id);
    }
    var least := LeastString(duplicates);
    assert LeastDuplicated(profiles, least);
  }

  ghost function LeastDuplicate(profiles: seq<ClusterProfile>): (id: string)
    requires exists id :: Duplicated(profiles, id)
    ensures LeastDuplicated(profiles, id)
  {
    LeastDuplicatedExists(profiles);
    var id :| LeastDuplicated(profiles, id);
    id
  }

  ghost function UniquenessVerdict(req: Requirement, profiles: seq<ClusterProfile>): TestResult {
    var missing := LackingNames(MemberIDPresence, profiles);
    if exists id :: Duplicated(profiles, id) then
      var id := LeastDuplicate(profiles);
      TestResult(req, Failed, DuplicatedID(id, Sorted(StrLe, Holders(profiles, id))))
    else if missing != [] then
      TestResult(req, Skipped, MissingIDs(Sorted(StrLe, missing)))
    else
      TestResult(req, Passed, NoMessage)
  }

  /** The index holds every ID that is present, with its holders. */
  ghost predicate Indexes(ids: map<string, seq<string>>, profiles: seq<ClusterProfile>) {
    && (forall id :: id in ids <==> id != "" && Holders(profiles, id) != [])
    && (forall id :: id in ids ==> ids[id] == Holders(profiles, id))
  }

  function Enter(ids: map<string, seq<string>>, p: ClusterProfile): map<string, seq<string>> {
    if p.MemberID() == "" then ids
    else ids[p.MemberID() := (if p.MemberID() in ids then ids[p.MemberID()] else []) + [p.FullName()]]
  }

  lemma HoldersAppend(front: seq<ClusterProfile>, p: ClusterProfile, id: string)
    ensures Holders(front + [p], id) == Holders(front, id) + if p.MemberID() == id then [p.FullName()] else []
  {
    assert (front + [p])[..|front|] == front;
  }

  lemma EnterIndexes(ids: map<string, seq<string>>, front: seq<ClusterProfile>, p: ClusterProfile)
    requires Indexes(ids, front)
    ensures Indexes(Enter(ids, p), front + [p])
    ensures LackingNames(MemberIDPresence, front + [p])
            == LackingNames(MemberIDPresence, front) + if p.MemberID() == "" then [p.FullName()] else []
  {
    assert (front + [p])[..|front|] == front;
    forall id
      ensures Holders(front + [p], id) == Holders(front, id) + if p.MemberID() == id then [p.FullName()] else []
    {
      HoldersAppend(front, p, id);
    }
  }

  method IndexIDs(profiles: seq<ClusterProfile>) returns (missing: seq<string>, ids: map<string, seq<string>>)
    ensures missing == LackingNames(MemberIDPresence, profiles) && Indexes(ids, profiles)
  {
    missing, ids := [], map[];
    for i := 0 to |profiles|
      invariant missing == LackingNames(MemberIDPresence, profiles[..i]) && Indexes(ids, profiles[..i])
    {
      var p := profiles[i];
      var name, id := p.FullName(), p.MemberID();
      EnterIndexes(ids, profiles[..i], p);
      PrefixNext(profiles, i);
      if id == "" {
        missing := missing + [name];
      } else {
        ids := ids[id := (if id in ids then ids[id] else []) + [name]];
      }
    }
    assert profiles[..|profiles|] == profiles;
  }

  method CheckUniqueness(req: Requirement, profiles: seq<ClusterProfile>) returns (r: TestResult)
    ensures r == UniquenessVerdict(req, profiles)
  {
    var missing, ids := IndexIDs(profiles);
    StrLeTotalPreorder();
    var keys := SortedKeys(ids.Keys);
    for k := 0 to |keys|
      invariant forall m :: 0 <= m < k ==> !Duplicated(profiles, keys[m])
    {
      var id := keys[k];
      if |ids[id]| > 1 {
        var holders := SortFunc(ids[id], StrLe);
        StringSortUnique(holders, ids[id]);
        LeastKey(profiles, keys, k);
        return TestResult(req, Failed, DuplicatedID(id, holders));
      }
    }
    assert forall id :: Duplicated(profiles, id) ==> id in keys;
    if |missing| > 0 {
      var sorted := SortFunc(missing, StrLe);
      StringSortUnique(sorted, missing);
      return TestResult(req, Skipped, MissingIDs(sorted));
    }
    r := TestResult(req, Passed, NoMessage);
  }

  /** The first duplicated key of a sorted list of all IDs is the least duplicated ID. */
  lemma LeastKey(profiles: seq<ClusterProfile>, keys: seq<string>, k: nat)
    requires k < |keys| && SortedBy(StrLe, keys)
    requires forall id :: Duplicated(profiles, id) ==> id in keys
    requires Duplicated(profiles, keys[k])
    requires forall m :: 0 <= m < k ==> !Duplicated(profiles, keys[m])
    ensures LeastDuplicate(profiles) == keys[k]
  {
    var least := LeastDuplicate(profiles);
    var m :| 0 <= m < |keys| && keys[m] == least;
    StrLeTotal(least, least);
    assert StrLe(keys[k], least);
    StrLeAntisymmetric(keys[k], least);
  }

  // ----- the verdict -----

  ghost function Verdict(req: Requirement, s: Snapshot): TestResult {
    if req.scope == ScopeAPI then CheckAPI(req, s)
    else if s.profileError.Some? then TestResult(req, Unknown, CannotList(s.profileError.value.text))
    else
      var profiles := if req.scope == ScopeInventory then s.profiles else s.managed;
      if req.id == Representation then
        if profiles == [] then TestResult(req, Failed, NoManagedProfile)
        else if s.expected > 0 && |profiles| != s.expected
            then TestResult(req, Failed, CountMismatch(s.expected, |profiles|))
        else TestResult(req, Passed, NoMessage)
      else if profiles == [] then TestResult(req, Unknown, NoProfiles)
      else if req.id == MemberUniqueness then UniquenessVerdict(req, profiles)
      else FieldsVerdict(req, profiles)
  }

  method Check(req: Requirement, s: Snapshot) returns (r: TestResult)
    ensures r == Verdict(req, s)
  {
    if req.scope == ScopeAPI {
      return CheckAPI(req, s);
    }
    if s.profileError.Some? {
      return TestResult(req, Unknown, CannotList(s.profileError.value.text));
    }
    var profiles := s.managed;
    if req.scope == ScopeInventory {
      profiles := s.profiles;
    }
    if req.id == Representation {
      if |profiles| == 0 {
        return TestResult(req, Failed, NoManagedProfile);
      }
      if s.expected > 0 && |profiles| != s.expected {
        return TestResult(req, Failed, CountMismatch(s.expected, |profiles|));
      }
      return TestResult(req, Passed, NoMessage);
    }
    if |profiles| == 0 {
      return TestResult(req, Unknown, NoProfiles);
    }
    if req.id == MemberUniqueness {
      r := CheckUniqueness(req, profiles);
      return;
    }
    r := CheckFields(req, profiles);
  }
}
