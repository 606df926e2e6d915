/** What each requirement of the catalog demands of an observed inventory, stated without
    reference to how the suite decides it, and the proof that the suite decides exactly that. */
module Requirements {
  import opened ConformanceTypes
  import opened Wrappers
  import opened Catalog
  import opened Checks
  import opened Ordering
  import Text

  /** Discovery answered and lists the resource. */
  ghost predicate Served(s: Snapshot) {
    s.apiError.None? && s.resources.Some? && exists r :: r in s.resources.value && r.name == ClusterProfiles
  }

  /** The first entry with the resource's name, the one that counts, is namespaced. */
  ghost predicate FirstIsNamespaced(resources: seq<APIResource>) {
    exists i :: 0 <= i < |resources| && resources[i] == APIResource(ClusterProfiles, true)
                && forall j :: 0 <= j < i ==> resources[j].name != ClusterProfiles
  }

  /** Two positions of the list carry the same member ID. */
  ghost predicate SharedID(profiles: seq<ClusterProfile>, id: string) {
    exists i, j :: 0 <= i < j < |profiles| && profiles[i].MemberID() == profiles[j].MemberID() == id
  }

  ghost predicate AllIdentified(profiles: seq<ClusterProfile>) {
    forall p :: p in profiles ==> p.MemberID() != ""
  }

  /** The specification's demand on the snapshot, requirement by requirement. */
  ghost predicate Satisfied(id: CheckID, s: Snapshot) {
    match id
    case APIAvailability => Served(s) && s.profileError.None?
    case Namespaced => Served(s) && FirstIsNamespaced(s.resources.value)
    case Representation => s.profileError.None? && s.managed != [] && (s.expected > 0 ==> |s.managed| == s.expected)
    case ManagerValue =>
      OnManaged(s, (p: ClusterProfile) => ManagerKey in p.labels ==> p.labels[ManagerKey] == p.manager)
    case MemberIDValue => OnManaged(s, (p: ClusterProfile) => MemberIDKey in p.labels ==> p.labels[MemberIDKey] != "")
    case ManagerPresence => OnManaged(s, (p: ClusterProfile) => ManagerKey in p.labels)
    case MemberIDPresence => OnManaged(s, (p: ClusterProfile) => MemberIDKey in p.labels && p.labels[MemberIDKey] != "")
    case HealthyPresence => OnManaged(s, (p: ClusterProfile) => p.HasCondition(HealthyCondition))
    case JoinedPresence => OnManaged(s, (p: ClusterProfile) => p.HasCondition(JoinedCondition))
    case VersionPresence => OnManaged(s, (p: ClusterProfile) => p.kubernetesVersion != "")
    case MemberUniqueness =>
      s.profileError.None? && s.profiles != [] && AllIdentified(s.profiles) && forall id :: !SharedID(s.profiles, id)
    case OtherCheck(_) => false
  }

  /** The managed profiles could be listed, there is one, and all have the property. */
  ghost predicate OnManaged(s: Snapshot, holds: ClusterProfile -> bool) {
    s.profileError.None? && s.managed != [] && forall p :: p in s.managed ==> holds(p)
  }

  lemma {:induction false} FirstServedMeaning(resources: seq<APIResource>)
    ensures FirstServed(resources).Some? <==> exists r :: r in resources && r.name == ClusterProfiles
    ensures FirstServed(resources) == Some(APIResource(ClusterProfiles, true)) <==> FirstIsNamespaced(resources)
    ensures FirstServed(resources).Some? ==> FirstServed(resources).value.name == ClusterProfiles
  {
    if resources != [] {
      var rest := resources[1..];
      FirstServedMeaning(rest);
      if resources[0].name != ClusterProfiles {
        if i :| 0 <= i < |resources| && resources[i].name == ClusterProfiles {
          assert rest[i - 1] == resources[i];
        }
        if i :| 0 <= i < |rest| && rest[i] == APIResource(ClusterProfiles, true)
                && forall j :: 0 <= j < i ==> rest[j].name != ClusterProfiles {
          assert resources[i + 1] == rest[i];
        }
        if i :| 0 <= i < |resources| && resources[i] == APIResource(ClusterProfiles, true)
                && forall j :: 0 <= j < i ==> resources[j].name != ClusterProfiles {
          assert rest[i - 1] == resources[i];
        }
      }
    }
  }

  lemma {:induction false} FirstViolationMeaning(id: CheckID, profiles: seq<ClusterProfile>)
    ensures FirstViolation(id, profiles).None? <==> forall p :: p in profiles ==> Violation(id, p).None?
    ensures FirstViolation(id, profiles).Some? ==>
              FirstViolation(id, profiles).value.ManagerMismatch? || FirstViolation(id, profiles).value.EmptyMemberID?
  {
    if profiles != [] {
      FirstViolationMeaning(id, profiles[1..]);
      assert profiles == [profiles[0]] + profiles[1..];
    }
  }

  lemma {:induction false} LackingNamesMeaning(id: CheckID, profiles: seq<ClusterProfile>)
    ensures LackingNames(id, profiles) == [] <==> forall p :: p in profiles ==> !Lacks(id, p)
  {
    if profiles != [] {
      var n := |profiles| - 1;
      LackingNamesMeaning(id, profiles[..n]);
      LastElement(profiles);
    }
  }

  /** Fields: a violation fails the check; otherwise a profile that lacks what the check is about
      fails it when that should be there and makes it not supported when it need not be;
      otherwise it passes. */
  lemma FieldsVerdictMeaning(req: Requirement, profiles: seq<ClusterProfile>)
    ensures var o := FieldsVerdict(req, profiles).outcome;
            var violated := exists p :: p in profiles && Violation(req.id, p).Some?;
            var lacking := exists p :: p in profiles && Lacks(req.id, p);
            && (o == Passed <==> forall p :: p in profiles ==> Violation(req.id, p).None? && !Lacks(req.id, p))
            && (o == Failed <==> violated || (req.level == Should && lacking))
            && (o == NotSupported <==> req.level != Should && !violated && lacking)
  {
    FirstViolationMeaning(req.id, profiles);
    LackingNamesMeaning(req.id, profiles);
  }

  /** Uniqueness: a shared ID fails even when other profiles have none; otherwise a missing
      ID leaves the question open; otherwise it passes. A failure names the least shared ID
      and all its holders in order. */
  lemma UniquenessVerdictMeaning(req: Requirement, profiles: seq<ClusterProfile>)
    ensures var v := UniquenessVerdict(req, profiles);
            && (v.outcome == Failed <==> exists id :: id != "" && SharedID(profiles, id))
            && (v.outcome == Skipped <==> !AllIdentified(profiles) && forall id :: id != "" ==> !SharedID(profiles, id))
            && (v.outcome == Passed <==> AllIdentified(profiles) && forall id :: !SharedID(profiles, id))
            && (v.outcome == Failed ==>
                  && v.message.DuplicatedID?
                  && var id := v.message.memberID;
                  && id != "" && SharedID(profiles, id)
                  && (forall other :: other != "" && SharedID(profiles, other) ==> StrLe(id, other))
                  && SortOf(StrLe, v.message.holders, Holders(profiles, id)))
  {
    forall id ensures Duplicated(profiles, id) <==> id != "" && SharedID(profiles, id) {
      HolderTwice(profiles, id);
    }
    if AllIdentified(profiles) {
      forall id ensures SharedID(profiles, id) ==> id != "" {
      }
    }
    LackingNamesMeaning(MemberIDPresence, profiles);
    forall p | p in profiles ensures Lacks(MemberIDPresence, p) <==> p.MemberID() == "" {
    }
    if exists id :: Duplicated(profiles, id) {
      StrLeTotalPreorder();
      SortedIsSort(StrLe, Holders(profiles, LeastDuplicate(profiles)));
    }
  }

  /** When uniqueness is verified for the whole inventory, the ID checks on the managed part
      pass as well. */
  lemma UniquenessImpliesIdentity(req: Requirement, presence: Requirement, valued: Requirement,
                                  profiles: seq<ClusterProfile>, managed: seq<ClusterProfile>)
    requires presence.id == MemberIDPresence && valued.id == MemberIDValue
    requires forall p :: p in managed ==> p in profiles
    requires UniquenessVerdict(req, profiles).outcome == Passed
    ensures FieldsVerdict(presence, managed).outcome == Passed
    ensures FieldsVerdict(valued, managed).outcome == Passed
  {
    UniquenessVerdictMeaning(req, profiles);
    FieldsVerdictMeaning(presence, managed);
    FieldsVerdictMeaning(valued, managed);
  }

  lemma CheckAPIMeaning(req: Requirement, s: Snapshot)
    requires req.id in {APIAvailability, Namespaced}
    ensures CheckAPI(req, s).outcome == Passed <==> Satisfied(req.id, s)
  {
    if s.resources.Some? {
      FirstServedMeaning(s.resources.value);
    }
  }

  /** Where a check looks and whether it may go unsupported, by its ID. */
  predicate WellPlaced(req: Requirement) {
    && !req.id.OtherCheck?
    && (req.scope == ScopeAPI <==> req.id in {APIAvailability, Namespaced})
    && (req.scope == ScopeInventory <==> req.id == MemberUniqueness)
    && (req.id in {ManagerPresence, MemberIDPresence, HealthyPresence, JoinedPresence, VersionPresence} ==>
        req.Optional())
  }

  lemma CatalogPlaced(req: Requirement)
    requires req in CATALOG
    ensures WellPlaced(req)
  {
  }

  lemma FieldsSatisfied(id: CheckID, s: Snapshot)
    requires !id.OtherCheck? && id !in {APIAvailability, Namespaced, Representation, MemberUniqueness}
    ensures Satisfied(id, s) <==>
            && s.profileError.None? && s.managed != []
            && forall p :: p in s.managed ==> Violation(id, p).None? && !Lacks(id, p)
  {
  }

  lemma PlacedVerdictMeaning(req: Requirement, s: Snapshot)
    requires WellPlaced(req)
    requires s.apiError.Some? ==> s.profileError.Some?
    ensures Verdict(req, s).outcome == Passed <==> Satisfied(req.id, s)
  {
    if req.scope == ScopeAPI {
      CheckAPIMeaning(req, s);
    } else if req.id == MemberUniqueness {
      UniquenessVerdictMeaning(req, s.profiles);
    } else if req.id != Representation {
      FieldsVerdictMeaning(req, s.managed);
      FieldsSatisfied(req.id, s);
    }
  }

  /** Every check of the catalog is sound and complete for its requirement. */
  lemma VerdictMeaning(req: Requirement, s: Snapshot)
    requires req in CATALOG
    requires s.apiError.Some? ==> s.profileError.Some?
    ensures Verdict(req, s).outcome == Passed <==> Satisfied(req.id, s)
  {
    CatalogPlaced(req);
    PlacedVerdictMeaning(req, s);
  }

  /** The text a reader would find blank. */
  predicate Blank(m: Message) {
    m.NoMessage? || (m.FreeText? && Text.AllSpace(m.text))
  }

  /** What the validator asks of a test of its requirement. */
  predicate WellFormed(t: TestResult) {
    && !t.outcome.OtherOutcome?
    && (t.outcome != Passed ==> !Blank(t.message))
    && (t.outcome == NotSupported ==> t.requirement.Optional())
  }

  lemma FieldsWellFormed(req: Requirement, profiles: seq<ClusterProfile>)
    requires WellPlaced(req)
    ensures WellFormed(FieldsVerdict(req, profiles))
  {
    FirstViolationMeaning(req.id, profiles);
    LackingNamesMeaning(req.id, profiles);
  }

  lemma PlacedWellFormed(req: Requirement, s: Snapshot)
    requires WellPlaced(req)
    ensures Verdict(req, s).requirement == req && WellFormed(Verdict(req, s))
  {
    FieldsWellFormed(req, s.managed);
  }

  /** Every verdict is well formed: it has a reason unless it passed, and no required check is
      reported as not supported. */
  lemma VerdictWellFormed(req: Requirement, s: Snapshot)
    requires req in CATALOG
    ensures Verdict(req, s).requirement == req && WellFormed(Verdict(req, s))
  {
    CatalogPlaced(req);
    PlacedWellFormed(req, s);
  }
}
