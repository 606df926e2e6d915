# Verification of the cluster inventory API's conformance suite and clients

A Dafny model of four parts of the repository and of what they promise. `dafny verify dfyconfig.toml`
checks all of it.

**The conformance suite** (`conformance/`). `Suite` models `Run`: options are defaulted and
validated, the inventory is listed and sorted, every catalog requirement is judged (`Checks`), the
outcomes are aggregated (`Catalog`) and a submission is validated before it is returned. The
outside world is a value: the clock, the connection error, the server's version, the end of the
context, and the answers to the namespace read, discovery and list calls. The label filter is
an arbitrary choice of catalog checks, or a text that does not parse. `Report` models the
validator, which recomputes a report in code of its own; `Acceptance` and `Matrix` say what follows
for accepted reports and for the table made of them. `Requirements` states what KEP-4322 asks of a
snapshot without reference to the checks, and `RunTheorems` connects the pieces for every run.

**The access configuration** (`pkg/access/`, and the generated copies it relies on). `DeepCopy` has
connection information on the heap: a Go slice is a nullable array, a struct is a record that shares
the arrays it mentions when it is copied by assignment. `AccessConfig` builds a client configuration
imperatively on a copy of a shared plugin call, `AccessSpec` says on values what is computed, and
`AccessTheorems` proves the laws of KEP-5339's extensions from that.

**The shared informer factory** (`client/informers/externalversions/factory.go`). `Informers` has
the methods as they run under the lock. `FactoryProtocol` is a state machine in which any number of
callers interleave statement by statement with each other and with the informers' goroutines;
`FactoryTheorems` proves an inductive invariant and safety over every run. `Discovery` does the same
for `awaitDiscovery`.

**The sample-inventory seeder** (`hack/conformance-seed/`). `Seed` models name derivation (section
2.1 of RFC 1123 and section 2.3.4 of RFC 1035 give the label syntax), object creation against a
server for one namespace, and the seeding loop; `SeedTheorems` composes it with the suite.

Conventions. Closed vocabularies are datatypes whose `Other...` constructor stands for any other
text; a message is a record of which text it is and what it mentions; a date or a link is its text
with what the library parser says of it. `Ordering` has the contract of the library sort, which
is not stable: results that the theorems call determined are so because the comparison
tells the sorted elements apart. In the theorems on runs, `items` is the listed inventory in the
order in which `Run` puts it.

Three properties one might expect hold only under a condition, which is proved exactly:

- A report is accepted whatever happens during the run, except when connecting fails with an error
  whose text is blank (`RunTheorems.ProducerAndValidatorAgree`, with the concrete run
  of `RunTheorems.BlankConnectErrorRejected`).
- Building a configuration returns a value or an error, except that additional environment data
  which decodes to nothing makes the write to the nil map panic when there are variables already,
  the provider's or, if the extension is repeated, those of its earlier occurrence, and no
  extension before it is refused (`AccessTheorems.PanicMeaning`, with the concrete builds of
  `AccessTheorems.NilDataPanics` and `AccessTheorems.RepeatedNamePanics`).
- A configuration that is built does not depend on the order of the extensions, except when a name
  is repeated and one of its extensions has data other than null: then some order is refused as a
  duplicate (`AccessTheorems.ExtensionOrderIrrelevant`, with the two orders of
  `AccessTheorems.OrderDecides`).

## Model

| member | source | states |
|---|---|---|
| RunTheorems.ProducerAndValidatorAgree | conformance/suite.go:244-344 | For every options value, every answer of the API server and every list order: the validator, written apart from the runner, accepts the report of a run if and only if the run mode, namespace, count and claims are valid and the run was not stopped by a connection error without text. |
| RunTheorems.ValidOptionsGiveAcceptableReports | conformance/suite.go:83-113 | Options that pass `validateOptions` give an acceptable report whatever happens during the run, given that connection errors have a text. |
| RunTheorems.BlankConnectErrorRejected | conformance/suite.go:257-260 | A concrete run with valid options whose report the validator rejects: `failSetup` copies the text of the error into every check, and a blank reason is not accepted. |
| RunTheorems.SuccessMeaning | conformance/suite.go:312-343 | A run's result is `Success` if and only if it reaches the checks, everything that counts is selected and holds of the snapshot by the declarative reading of the specification, and a submission identifies what it observed. |
| RunTheorems.NoErrorIffSuccess | conformance/suite.go:334-343 | A run returns no error if and only if its report's result is `Success`. |
| RunTheorems.SubmittableIffNoErrors | conformance/suite.go:335-339 | In submission mode the returned report passes submission validation if and only if it records no error; an aborted run can never be submitted. |
| RunTheorems.EndingShape | conformance/suite.go:247-260 | Every way a run can end reports the whole catalog in order, summarised, with the outcomes of that ending; a run that stops early records its error and returns it. |
| RunTheorems.ObservationSuccess | conformance/suite.go:327-334 | For a run that reaches the checks, the observed report is a success if and only if every counting requirement is selected and satisfied. |
| RunTheorems.ObservationSubmittable | conformance/report.go:131-158 | A successful observation passes submission validation if and only if the version is known, something was observed and the observed objects are identified, of the inventory's namespace and distinct. |
| RunTheorems.ListOrderIrrelevant | conformance/suite.go:312-333 | Two runs that differ only in their time and in the order the server lists the same, distinctly named profiles give the same report but for its date, messages and observed objects included, and the same error. |
| RunTheorems.DateIrrelevant | conformance/suite.go:132-158 | The time of a run shows in the date of its report and nowhere else, however the run ends. |
| RunTheorems.TestsOfWellFormed | conformance/suite.go:252-260 | Every check a run reports has a known outcome, a reason unless it passed, and is not-supported only if optional, except exactly when a blank connection error stops the run. |
| Suite.Run | conformance/suite.go:244-344 | The runner, step by step, returns the report and error that the specification `EndingOf` gives for the listed inventory in some order sorted by name; all theorems on runs are about that specification and hold for every such order. |
| Suite.Observer.constructor | conformance/suite.go:132-158 | A new report: claims sorted, pinned revisions, no tests, result undetermined. |
| Suite.Observer.FillAll | conformance/suite.go:252-256 | Appends one result per catalog requirement with the given outcome and message. |
| Suite.Observer.Finish | conformance/suite.go:346-352 | Overwrites statistics and result of every profile and the overall result with what the tests and errors determine, and changes nothing else. |
| Suite.Observer.Abort | conformance/suite.go:247-251 | Records the error, then recomputes the summary. |
| Suite.Observer.FailSetup | conformance/suite.go:257-260 | Every requirement unknown with the error as reason, the error recorded, the summary recomputed. |
| Suite.JudgeAll | conformance/suite.go:327-333 | Appends for every requirement its verdict, or a skipped result when the filter excludes it. |
| Suite.RecordObserved | conformance/suite.go:316-326 | Appends a reference to each listed profile in order. |
| Suite.ValidateOptions | conformance/suite.go:83-113 | The first violated rule on the options, in source order, if any. |
| Report.ValidateReport | conformance/report.go:96-129 | Returns the first problem of a report in source order, and none if and only if the report is right: a declarative predicate that mentions no loop and no order of checks. |
| Report.ReportProblemMeaning | conformance/report.go:96-158 | The validator's sequence of checks accepts exactly the reports that are right, as submissions or not. |
| Report.ValidateProfile | conformance/report.go:160-197 | The profile loop with its `seen` map returns the first problem of the profile. |
| Report.ProfileProblemMeaning | conformance/report.go:160-197 | A profile is accepted if and only if its tests are a permutation of the catalog, well formed, with valid claims and the statistics and result that follow from them. |
| Report.Pigeonhole | conformance/report.go:167-179 | As many entries as the catalog, distinct IDs and membership hold if and only if the entries are a permutation of the catalog. |
| Report.CompleteTestsMeaning | conformance/report.go:167-191 | The loop over a list of the right length accepts exactly the permutations of the catalog whose tests are well formed. |
| Report.TestsProblemMeaning | conformance/report.go:170-191 | The `seen` loop accepts if and only if every test is well formed, unmodified, about an unseen check, and no check occurs twice. |
| Report.ValidateSubmission | conformance/report.go:131-158 | The submission checks with the `objects` map return the first problem. |
| Report.SubmissionProblemMeaning | conformance/report.go:131-158 | A submission is accepted if and only if it is complete: mode, metadata, version, result, and identified, distinct objects of its namespace. |
| Report.ObjectsProblemMeaning | conformance/report.go:147-156 | The `objects` loop accepts if and only if every object is identified, in the namespace and listed once. |
| Report.ValidateMetadata | conformance/report.go:48-92 | Collects every metadata problem in source order. |
| Report.MetadataProblemMeaning | conformance/report.go:48-92 | No problem is found if and only if the metadata is complete: texts, clean full commits, links, non-blank contacts. |
| Report.ValidateFeatures | conformance/suite.go:115-130 | The loop accepts the claims if and only if they are known, distinct and claim member IDs whenever they claim uniqueness. |
| Report.ClaimsPermutation | conformance/suite.go:133-134 | Sorting the claims, as a new report does, keeps them valid and keeps invalid ones invalid. |
| Acceptance.AcceptancePermutation | conformance/report.go:170-195 | Accepting a profile does not depend on the order of its tests. |
| Acceptance.AcceptedIsTheCatalog | conformance/report.go:167-179 | An accepted profile answers every requirement of the catalog exactly once and nothing else. |
| Acceptance.ClaimedCell | conformance/report.go:302-312 | In an accepted submission the cell of a claimed feature is the outcome of the one test about it: passed or skipped, and passed if the report is a success. |
| Acceptance.FirstNotPassingMeaning | conformance/report.go:306-311 | The status loop gives passed if and only if every test about the feature passed, and otherwise the outcome of one that did not. |
| Checks.CheckUniqueness | conformance/checks.go:104-131 | The map and the sorted search compute the uniqueness verdict. |
| Checks.LeastKey | conformance/checks.go:116-121 | The first duplicated key of the sorted keys is the least duplicated ID of the inventory. |
| Checks.CheckFields | conformance/checks.go:133-179 | The loop computes the first violation or, failing that, the sorted list of profiles that lack the capability. |
| Checks.Check | conformance/checks.go:71-102 | The dispatch on scope and ID computes the verdict. |
| Checks.HolderTwice | conformance/checks.go:107-117 | An ID has more than one holder if and only if two positions of the list carry it. |
| Requirements.VerdictMeaning | conformance/checks.go:45-179 | Every check of the catalog is sound and complete: it passes if and only if the snapshot satisfies the requirement, stated declaratively. |
| Requirements.UniquenessVerdictMeaning | conformance/checks.go:104-131 | Failed if and only if two positions share a non-empty ID, naming the least such ID and all its holders in order; else skipped if and only if some ID is missing; else passed. |
| Requirements.UniquenessImpliesIdentity | conformance/checks.go:104-156 | When uniqueness passes on the whole inventory, the ID-presence and ID-value checks pass on every part of it. |
| Requirements.FieldsVerdictMeaning | conformance/checks.go:133-179 | A field check fails if and only if some profile violates it, or lacks what a should-level check is about; is not supported if and only if none violates it and some lacks what another check is about; and passes otherwise. |
| Requirements.CheckAPIMeaning | conformance/checks.go:45-69 | The API checks pass if and only if discovery answered, the first entry of the resource's name is as required and the inventory can be listed. |
| Requirements.VerdictWellFormed | conformance/checks.go:71-179 | Every verdict is about its requirement, has a reason unless it passed, and never reports a required check as not supported. |
| Catalog.Summarize | conformance/catalog.go:159-193 | The loop with its rank-combining variable returns the five counts and the result given by the documented precedence. |
| Catalog.PrecedenceNext | conformance/catalog.go:176-191 | One more test: the stated precedence of the longer list is the combination of the precedence so far and the test's weight, and unchanged when the test does not count. |
| Catalog.SummaryPermutation | conformance/catalog.go:159-193 | Statistics and result do not depend on the order of the tests. |
| Catalog.TallyPartition | conformance/catalog.go:160-175 | The five counts add up to the total if and only if every outcome is a known one. |
| Catalog.ClaimingMore | conformance/catalog.go:155-192 | Once some test counts, claiming more features never improves the result. |
| Catalog.ClaimingMoreNeedsAGatedTest | conformance/catalog.go:189-191 | When no test counts, a claim can turn an undetermined result into success. |
| Catalog.Overall | conformance/catalog.go:205-217 | The roll-up loop returns the worst of the profile results, at least undetermined when there are errors or no profiles. |
| Catalog.Features | conformance/catalog.go:37-45 | The initialiser lists the features of the optional entries in catalog order. |
| Catalog.FeaturesMeaning | conformance/catalog.go:36-45 | The claimable features are exactly those of the optional catalog entries, each once. |
| Matrix.GenerateMatrix | conformance/report.go:316-411 | A matrix is written if and only if every file is an accepted report; it is then the document of the entries sorted by the key; otherwise a file that is not accepted is named. |
| Matrix.WriteLines | conformance/report.go:374-408 | The loop with its `group` variable emits the header and row records of the sorted entries. |
| Matrix.MatrixMeaning | conformance/report.go:346-408 | For accepted reports: one row per report, exactly one header per distinct specification, suite and API tuple, and every row under the header of its own tuple. |
| Matrix.WrittenMeaning | conformance/report.go:318-408 | In a written matrix the rows are the reports of the files, one per file, and every distinct specification, suite and API tuple has one header, under which its rows stand. |
| Matrix.RowsMeaning | conformance/report.go:302-408 | In a written matrix a cell is empty exactly when the feature is not claimed; otherwise it is the outcome of a test about the feature, passed or skipped, and passed if the report is a success. |
| Matrix.SortedContiguous | conformance/report.go:346-358 | In any list sorted by the nine-part key the reports of one tuple stand together, because the key starts with the tuple. |
| Matrix.KeyPrefixConvex | conformance/report.go:348-358 | Keys that begin alike enclose, in the sort order, only keys that begin so too. |
| Matrix.WalkOrderIrrelevant | conformance/report.go:318-359 | Two walks over the same files with distinct paths both write the same matrix or both write none, though the sort is not stable. |
| Matrix.AcceptedGroup | conformance/report.go:106-108 | An accepted report's tuple is never the empty one the group variable starts with, so the first report always opens a group. |
| Matrix.LinesHeaders | conformance/report.go:374-388 | Over contiguous entries the group variable gives each group exactly one header. |
| Text.SplitList | conformance/suite.go:384-392 | The loop returns the trimmed non-empty fields. |
| Text.ListItems | conformance/suite.go:384-392 | Every item of a parsed list is trimmed, non-empty and free of commas. |
| Text.ListRoundTrip | conformance/suite.go:374-392 | Printing a list and parsing it again is the identity exactly on the lists that parsing can produce. |
| Text.ListConcat | conformance/suite.go:384-392 | Parsing `a,b` gives the items of `a` followed by those of `b`. |
| Text.DecimalInjective | hack/conformance-seed/main.go:114 | Decimal printing is injective. |
| Text.DecimalLength | hack/conformance-seed/main.go:114 | A number has at most k digits if and only if it is below the k-th power of ten. |
| Seed.ObjectNamePrefix | hack/conformance-seed/main.go:190-208 | For every manager name: a non-empty host-name label of at most 40 characters, with no hyphen at either end. |
| Seed.MemberIDFits | hack/conformance-seed/main.go:114-121 | The member ID is a valid label value if and only if prefix and index leave it room; up to eleven digits always do, and twelve never do when the prefix has 40 characters. |
| Seed.NamesDistinct | hack/conformance-seed/main.go:114-121 | Different indexes give different names and member IDs. |
| Seed.SeedClusterProfile | hack/conformance-seed/main.go:112-178 | Creating or adopting an object and writing its status leaves the store and the error the specification of one step says. |
| Seed.Run | hack/conformance-seed/main.go:67-110 | The loop stops at the first failure and leaves the store that the steps up to it leave. |
| Seed.SeedingAgain | hack/conformance-seed/main.go:100-142 | Seeding over the seeds of earlier runs, adopting what exists and creating the rest, succeeds under the same condition and leaves exactly the seeds of the larger count. |
| Seed.SeedingMeaning | hack/conformance-seed/main.go:100-104 | Seeding an empty namespace succeeds if and only if the API accepts the manager name and the last index leaves room for its member ID; the namespace then holds exactly the seeded objects. |
| Seed.OtherManagerRefused | hack/conformance-seed/main.go:133-142 | When two manager names derive one prefix, seeding for the second over the first's seeds is refused at the first object and writes nothing. |
| Seed.SeedsCounted | hack/conformance-seed/main.go:100-104 | The seeded objects are as many as the steps. |
| SeedTheorems.SeededInventorySucceeds | hack/conformance-seed/main.go:112-178 | Observing a seeded inventory with any claimed features, in any list order, passes every check and is a success, in submission mode too. |
| SeedTheorems.SeedThenRun | hack/conformance-seed/main.go:100-178 | End to end: for every manager name the API accepts and every count from 1 to below 10^11, seeding an empty namespace and running the suite on it is a success. |
| DeepCopy.CopyCluster | apis/v1alpha2/zz_generated.deepcopy.go:45-59 | The copy has the same contents in storage of its own, no two of its slices sharing any. |
| DeepCopy.CopyStatus | apis/v1alpha2/zz_generated.deepcopy.go:193-217 | For any number of providers and extensions: the same contents, every slice and buffer reachable from the copy fresh, and no two of them sharing storage, within one provider or between two. |
| DeepCopy.CopyIsIndependent | apis/v1alpha2/zz_generated.deepcopy.go:45-59 | A write to the CA bundle of the original and one to that of the copy: each side keeps its own and nothing else changes. |
| DeepCopy.EntriesAreIndependent | apis/v1alpha2/zz_generated.deepcopy.go:45-59 | The same for entries of the extension list. |
| DeepCopy.BuffersAreIndependent | apis/v1alpha2/zz_generated.deepcopy.go:45-59 | The same for the bytes of an extension. |
| DeepCopy.ToClientcmdCluster | pkg/access/conversion.go:30-52 | Every field is converted into fresh storage; an empty CA bundle becomes nil, nil and empty extension lists stay apart, the CA file path stays empty. |
| AccessConfig.Config.BuildConfigFromCP | pkg/access/config.go:126-205 | Building modifies nothing, answers as specified by the chosen provider, the extensions and the policies, and stores what it returns apart from the profile and the configured providers. |
| AccessConfig.Config.BuildAgain | pkg/access/config.go:142-144 | Building again from what is still the same gives an equal configuration in new storage. |
| AccessConfig.Config.GetClusterAccessor | pkg/access/config.go:220-236 | The map of deep copies and the search give a fresh copy of the first configured provider that is offered. |
| AccessConfig.Config.GetExecConfig | pkg/access/config.go:207-216 | The first configured provider of the name, or none with both policies ignoring. |
| AccessConfig.Prepare | pkg/access/config.go:142-165 | The plugin call is copied and the extensions are folded into the copy, up to the first refusal or panic; the shared call keeps its contents, and nothing of the copy is shared with it. |
| AccessConfig.ProcessExtensions | pkg/access/config.go:148-165 | The extension loop changes arguments and environment of the copy and nothing else, as folding the extensions one by one says, and stops at the first refusal or panic. |
| AccessConfig.ProcessArgs | pkg/access/config.go:238-258 | Appends the decoded arguments under Append, leaves them under Ignore, refuses an unknown policy; on an error the call is unchanged. |
| AccessConfig.ProcessEnv | pkg/access/config.go:260-316 | The merged environment in canonical order, whatever order the map is iterated in; the outcome is a panic exactly when the merge writes to a nil map. |
| AccessConfig.ListVars | pkg/access/config.go:304-313 | Collecting the pairs of a map in any order and sorting them gives the one canonical list. |
| AccessConfig.ConvertExtensions | pkg/access/config.go:194-202 | The loop gives each name the buffer of its last extension, or no object if that one's data are null, and fails exactly when a name that has an object is given again. |
| AccessTheorems.ConvertMeaning | pkg/access/config.go:194-202 | The conversion succeeds if and only if among the extensions of each name all but the last have null data, and then each name has the object of its last extension. |
| AccessTheorems.MergeEnvMeaning | pkg/access/config.go:271-314 | The merged list is strictly increasing by name, its names are those of both sources, and conflicts go to the provider's last value (AppendIfNotExists) or to the extension and then the provider's first (Replace). |
| AccessTheorems.MergeEnvIdempotent | pkg/access/config.go:271-314 | Applying the same extension twice is applying it once. |
| AccessSpec.CanonicalUnique | pkg/access/config.go:300-314 | A mapping has one canonical list, so map iteration order cannot show. |
| AccessTheorems.ApplyAllMeaning | pkg/access/config.go:146-165 | For any extensions, repeated names included, folding succeeds if and only if arguments and environment can each be folded alone, and then changes those two only. |
| AccessTheorems.FoldSucceeds | pkg/access/config.go:146-165 | Folding succeeds if and only if no extension is refused under the policies and none writes to a nil map. |
| AccessTheorems.FoldPanics | pkg/access/config.go:146-165 | Folding panics if and only if some extension writes to a nil map and none before it is refused; names may repeat. |
| AccessTheorems.BuiltExactly | pkg/access/config.go:146-204 | A configuration is built if and only if among the extensions of each name all but the last have null data, no extension is refused and none writes to a nil map. |
| AccessTheorems.ExtensionOrderIrrelevant | pkg/access/config.go:146-202 | Given that null data decode to nothing: a configuration that is built is the same for every order of the extensions if and only if every extension whose name repeats has null data. |
| AccessTheorems.ReorderedBuild | pkg/access/config.go:146-202 | One reordering of a built configuration's extensions changes nothing when repeated extensions come to nothing; with distinct names no assumption on the decoder is needed. |
| AccessTheorems.OrderDecides | pkg/access/config.go:194-202 | A concrete list of two extensions that is built in one order and refused as a duplicate in the other. |
| AccessTheorems.OfferOrderIrrelevant | pkg/access/config.go:223-234 | Permuting access providers with distinct names leaves the index they are looked up in unchanged. |
| AccessConfig.OfferOrderAnswer | pkg/access/config.go:126-205 | The answer does not depend on the order of access providers with distinct names. |
| AccessConfig.ExtensionOrderAnswer | pkg/access/config.go:126-205 | Given that null data decode to nothing: an answer that is a configuration is the same for every order of the access providers' extensions if and only if those of the chosen one repeat no name with data other than null. |
| AccessTheorems.LatestMeaning | pkg/access/config.go:223-227 | Of several access providers with one name the last is the one looked up. |
| AccessTheorems.ChoiceMeaning | pkg/access/config.go:229-235 | The chosen name is offered and no earlier configured name is; nothing is chosen if and only if no configured name is offered. |
| AccessTheorems.BuiltMeaning | pkg/access/config.go:167-202 | A built configuration has the provider's arguments followed by the decoded ones under Append and alone under Ignore, the cluster's connection fields, the plugin configuration of the last reserved extension if there is one, and a plugin that is never interactive. |
| AccessTheorems.PanicMeaning | pkg/access/config.go:265-294 | Building panics if and only if, under a merging policy, some environment extension decodes to nothing while there are variables already, the provider's or an earlier extension's, and no extension before it is refused. |
| AccessTheorems.DistinctPanicMeaning | pkg/access/config.go:265-294 | When no extension name repeats, the same with the provider's own variables. |
| AccessTheorems.NilDataPanics | pkg/access/config.go:271-281 | A concrete build that panics: one extension with empty data, a provider with one variable. |
| AccessTheorems.RepeatedNamePanics | pkg/access/config.go:148-165 | A concrete build that panics although the provider has no variables: the extension is given twice, the second time with empty data. |
| AccessTheorems.MappingsNeverPanic | pkg/access/config.go:146-165 | Whatever the extension names, folding never panics when every environment extension decodes to a mapping or is malformed. |
| Informers.SharedInformerFactory.Start | client/informers/externalversions/factory.go:124-146 | Starts exactly the informers not started before, each once, in any iteration order; nothing when shutting down; the count stays the number of running goroutines. |
| Informers.SharedInformerFactory.InformerFor | client/informers/externalversions/factory.go:180-200 | Returns the kind's informer, or creates it with the kind's resync period; no other informer changes. |
| Informers.SharedInformerFactory.BeginShutdown | client/informers/externalversions/factory.go:149-151 | Sets the flag and changes nothing else. |
| Informers.SharedInformerFactory.StartedSnapshot | client/informers/externalversions/factory.go:157-169 | The snapshot is exactly the started informers. |
| Informers.SharedInformerFactory.WaitAll | client/informers/externalversions/factory.go:171-175 | One answer for each informer of the snapshot, its own. |
| FactoryTheorems.Invariant | client/informers/externalversions/factory.go:124-200 | Every state of every interleaving of callers and goroutines satisfies the invariant: mutual exclusion, started kinds created, counts exact at each statement, and what each caller relies on at its place. |
| FactoryTheorems.StepKeeps | client/informers/externalversions/factory.go:124-200 | Every atomic step, of a caller inside or outside the lock or of a goroutine, keeps the invariant and only adds to the factory. |
| FactoryTheorems.Growth | client/informers/externalversions/factory.go:124-200 | Over any stretch of a run informers are only added, started kinds stay started, goroutines are only added and only finish, and shutting down is final. |
| FactoryTheorems.OneInformerPerKind | client/informers/externalversions/factory.go:180-200 | Whatever two calls of InformerFor return for one kind, at any times in a run, is the same informer, and the one goroutines run. |
| FactoryTheorems.RunAtMostOnce | client/informers/externalversions/factory.go:132-145 | Each kind is run at most once, by its own informer, and only if created; each informer is run at most once when the constructors give distinct ones. |
| FactoryTheorems.CountIsRunning | client/informers/externalversions/factory.go:134-141 | Except between Add and the go statement, the wait group's count is the number of goroutines still running; it is never negative. |
| FactoryTheorems.NothingStartsAfterShutdown | client/informers/externalversions/factory.go:128-153 | After a Shutdown has set its flag no Add, launch or mark ever happens and the count never rises. |
| FactoryTheorems.FrozenStep | client/informers/externalversions/factory.go:128-130 | Once shutting down, no step of any caller is an Add, a launch or a mark. |
| FactoryTheorems.ShutdownIsFinal | client/informers/externalversions/factory.go:148-155 | When a Shutdown has returned, and ever after, the count is zero and every goroutine launched has finished. |
| FactoryTheorems.ShutdownWaitsForAll | client/informers/externalversions/factory.go:153-154 | A waiting Shutdown can return if and only if every goroutine has finished. |
| FactoryTheorems.HolderCanStep | client/informers/externalversions/factory.go:124-200 | The caller that has the lock can always take a step or release it. |
| FactoryTheorems.SnapshotIsStarted | client/informers/externalversions/factory.go:157-169 | A snapshot is the set of started informers at the moment the lock is released. |
| FactoryTheorems.SyncAnswersForStarted | client/informers/externalversions/factory.go:157-176 | What was started while a caller took its snapshot is answered for when WaitForCacheSync returns, with the informer the kind still has, however long the wait was. |
| FactoryTheorems.StartIsAtomic | client/informers/externalversions/factory.go:124-146 | A whole Start, interleaved with anything, takes the factory exactly where the sequential method does. |
| Discovery.ReplyMeaning | conformance/suite.go:194-214 | In every interleaving an answer is what was observed, and a cancellation is reported only after one. |
| Discovery.CancelledOnEntry | conformance/suite.go:195-198 | A context cancelled before the call: the observation is never made. |
| Discovery.SendNeverBlocks | conformance/suite.go:203-207 | The goroutine can always deliver and finish, whether or not the caller is still there. |
| Discovery.SelectReady | conformance/suite.go:208-213 | The caller can leave the select if and only if the context is cancelled or the goroutine has delivered, and then it gets what was observed. |

## Left out

- Network access: the REST clients, clientsets, listers and per-type informers are answers of the
  modelled world, and a call's duration is not modelled; the timeout shows only as the ended context.
- YAML and JSON encoding, `ReadReport`, the HTML report, `WriteReports` and `atomicWrite`, and the
  Markdown text of the matrix: the matrix is its header and row records.
- The directory walk: files come in an arbitrary order, each one report or unreadable; errors of the
  walk itself are not modelled.
- The parser of label filters: a filter is the set of checks it selects, or does not parse.
- The SHA-256 digest of the catalog, URL parsing and date parsing: flags and constants.
- The exact wording and quoting of messages; which message is given and what it names is modelled.
- Flag registration, `RunConformance`, the commands under `conformance/cmd` and the examples.
- `plugins/` and `pkg/credentialplugin`: guard chains around Secret reads and process exit.
- The v1alpha1 types and the validation rules of the CRDs, which the API server enforces.
- Seed.SeedClusterProfile: the properties, access providers and observation times of a seeded status are not modelled,
  and the server checks the name, the label values and the manager name only; a manager name is valid UTF-8.
- DeepCopy.CopyStatus: raw extension data is a byte buffer, without the decoded object that can stand beside it; spare
  capacity of slices is not modelled.
- AccessConfig.Config.BuildConfigFromCP: the proxy function is modelled by the text it parses when it is called, and a
  plugin configuration object by where it comes from and a buffer of its own.
- `SetTransform` and the options of the informer factory other than resync periods.
- Whether goroutines ever finish: the factory's theorems are about what can happen, not about what must.
