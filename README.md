# ATT&CK Workbench REST API: rule engines in Dafny

This project is a Dafny model of the decision logic in the ATT&CK Workbench REST API. That logic is a set of rule engines over STIX objects. Each object is identified by its version key, the pair (`id`, `modified`). The Express routes, the MongoDB repositories and the services they call are inputs to the model. Each module below follows one source file.

- `BundleValidator` (`bundle_validator.dfy`) models the collection-bundle validator. It turns a bundle's objects into an ordered list of issues:
  - no collection, or more than one;
  - a first collection without an id;
  - a repeated `id/modified` key;
  - an ATT&CK spec version that is invalid or newer than the configured maximum.

  The method that builds the issues is proved equal to a specification, and the lemmas state the counts, order and references of the issues.
- `SemVer` (`semver.dfy`) is the strict Semantic Versioning 2.0.0 grammar (sections 2, 9 and 10) and precedence (section 11). It stands in for the `semver` package's `valid` and `gt`, which the validator calls; the differences are listed under "## Left out". It proves that parsing and formatting are inverse in both directions and that precedence is antisymmetric and transitive.
- `BundleImport` (`bundle_import.dfy`) models the collection-bundles controller:
  - expanding `forceImport`;
  - folding the validator's issues into the error report;
  - the hard and soft rejection rules;
  - the HTTP status for each outcome of the import and export services.
- `IntegrityTests` (`integrity_tests.dfy`) models the four data-integrity rules over snapshots of objects and relationships. `IntegrityService` (`integrity_service.dfy`) models the orchestrator that runs three of them and reports only references.
- `KillChain`, `TacticsService` and `TechniquesService` (`kill_chain.dfy`, `tactics.dfy`, `techniques.dfy`) model:
  - the predicate that pairs a tactic with a technique through phase names and mapped kill-chain names;
  - `getPageOfData`;
  - the control flow of the two "related objects" retrievals.
- `Matrices` (`matrices.dfy`) models the matrices service:
  - the parameter checks;
  - the error mappings;
  - putting each tactic's sub-techniques under their super-techniques;
  - collecting the tactics of a matrix version into an object keyed by name, in insertion order;
  - an `updateFull` that copies the request's properties over the stored document;
  - the defaults that `create` fills in.
- `UserAccounts` (`user_accounts.dfy`) models the user-accounts service: the effective role, which updates an account in place; the account as a STIX identity; the pagination envelope; `retrieveById`; and the defaults and duplicate-email guard of `create`.
- `Common` (`common.dfy`) holds the shared pieces:
  - JavaScript values (`undefined`, `null`, strings) and their truthiness;
  - `Array.prototype.filter` and `some`;
  - counting, flattening, and the lemmas about them.

Where the source loops or mutates, the model is a method. Each such method is proved equal to a specification function, and the properties are proved about that function.

The counts in the import report differ from what their names suggest. `duplicateObjectInBundleCount` and `invalidAttackSpecVersionCount` are filled in only when the service's own `validateBundle` reports errors (`app/controllers/collection-bundles-controller.js` lines 78-93). Otherwise they stay 0, and the bundle is imported even when it holds repeated keys or rejected spec versions. The model follows the code. `BundleImport.ReportOf` and `BundleImport.DuplicatesRejectOnlyWithValidationErrors` state this behaviour.

## Model

| member | source | states |
|---|---|---|
| BundleValidator.CreateIssue | app/validators/collection-bundles-validator.js:14-27 | an issue made from an object has that rule and references exactly the object's `id` and `modified` |
| BundleValidator.MakeKey | app/validators/collection-bundles-validator.js:29-31 | definition of the duplicate key: `id`, `/`, `modified`, each converted to a string as `+` converts it; `MakeKeyCollision` shows two versions it confuses |
| BundleValidator.IsRepeat | app/validators/collection-bundles-validator.js:59-60 | definition: the key of object i already occurs among the objects before it; `RepeatMeansEarlierTwin` restates it with the earlier object's index |
| BundleValidator.SpecVersionViolation | app/validators/collection-bundles-validator.js:67-76 | definition: the version, `??`-defaulted to `2.0.0`, is not a semantic version, or is greater than the configured one |
| BundleValidator.Validation | app/validators/collection-bundles-validator.js:37-80 | definition of the validator's result: the bundle-level issues, then each object's issues in bundle order; `ValidateCollectionBundle` computes it and the lemmas below count it |
| BundleValidator.Collections | app/validators/collection-bundles-validator.js:40 | the collections are objects of the bundle of type `x-mitre-collection`, no more of them than objects |
| BundleValidator.ValidateCollectionBundle | app/validators/collection-bundles-validator.js:37-80 | the issues returned, built with a seen-key map, are exactly the specification `Validation`: bundle-level issues, then each object's repeat and spec-version issues in bundle order |
| BundleValidator.CheckAttackSpecVersion | app/validators/collection-bundles-validator.js:68-76 | the loop body's check yields one issue exactly when the effective version is not a semantic version or is greater than the maximum |
| BundleValidator.PerObjectIssues | app/validators/collection-bundles-validator.js:57-77 | one list of issues per object, the i-th the issues about object i |
| BundleValidator.KeySetOccurrences | app/validators/collection-bundles-validator.js:56-65 | a key is in the seen-key set exactly when it occurs among the objects scanned |
| BundleValidator.KeySetStep | app/validators/collection-bundles-validator.js:60-65 | a repeat leaves the seen keys as they are, any other object adds one |
| BundleValidator.KeySeen | app/validators/collection-bundles-validator.js:60 | the map has the key of object i exactly when i is a repeat |
| BundleValidator.IssuesForCount | app/validators/collection-bundles-validator.js:58-76 | one object yields one repeat issue iff it is a repeat and one spec-version issue iff its version is rejected |
| BundleValidator.IssuesForShape | app/validators/collection-bundles-validator.js:58-76 | one object yields at most two issues, all referencing it, the repeat issue before the spec-version one |
| BundleValidator.ObjectIssuesShape | app/validators/collection-bundles-validator.js:57-77 | every per-object issue references an object and concerns the repeat or spec-version rule |
| BundleValidator.ObjectIssuesNoBundleRule | app/validators/collection-bundles-validator.js:57-77 | the object loop never emits a bundle-level rule |
| BundleValidator.CountBundleRule | app/validators/collection-bundles-validator.js:42-53 | a bundle-level rule's count comes from the collection checks alone |
| BundleValidator.ZeroCollections | app/validators/collection-bundles-validator.js:43-45 | no collection gives exactly one zero-collections issue, first and without reference, and no more-than-one issue |
| BundleValidator.SeveralCollections | app/validators/collection-bundles-validator.js:46-48 | several collections give exactly one more-than-one issue and no zero-collections issue |
| BundleValidator.CollectionCountIssued | app/validators/collection-bundles-validator.js:43-48 | each collection-count issue appears once exactly when its condition on the number of collections holds |
| BundleValidator.MissingCollectionId | app/validators/collection-bundles-validator.js:51-53 | the missing-id issue appears, once, iff there is a collection and the first one's id is falsy |
| BundleValidator.RepeatsPerKey | app/validators/collection-bundles-validator.js:56-65 | a key occurring n > 0 times yields exactly n - 1 repeat issues referencing it |
| BundleValidator.RepeatMeansEarlierTwin | app/validators/collection-bundles-validator.js:60-62 | an object is a repeat exactly when an earlier object has its key |
| BundleValidator.RepeatIssueHasEarlierTwin | app/validators/collection-bundles-validator.js:60-62 | an object gets a repeat issue iff an earlier object has its key, so the first occurrence never does |
| BundleValidator.RepeatTotal | app/validators/collection-bundles-validator.js:56-65 | the repeat issues among the first n objects number n minus their distinct keys |
| BundleValidator.SpecVersionTotal | app/validators/collection-bundles-validator.js:68-76 | the spec-version issues among the first n objects number those whose version is rejected |
| BundleValidator.DuplicateTotal | app/validators/collection-bundles-validator.js:56-65 | over the whole bundle, repeat issues = objects - distinct keys |
| BundleValidator.SpecVersionTotalAll | app/validators/collection-bundles-validator.js:67-76 | over the whole bundle, spec-version issues = rejected objects, at most one each |
| BundleValidator.ObjectIssuesPrefix | app/validators/collection-bundles-validator.js:57-77 | per-object issues follow bundle order: those of a prefix of the objects are a prefix of the issues |
| BundleValidator.BundleIssuesFirst | app/validators/collection-bundles-validator.js:42-77 | at most two bundle-level issues, without reference, come before every per-object issue, each with a reference |
| BundleValidator.DefaultSpecVersionIsBaseline | app/validators/collection-bundles-validator.js:35 | an absent or null spec version is judged exactly as `2.0.0` |
| BundleValidator.DefaultSpecVersionEquivalent | app/validators/collection-bundles-validator.js:68 | writing `2.0.0` into every object without a spec version changes no issue of the bundle |
| BundleValidator.MakeKeyCollision | app/validators/collection-bundles-validator.js:29-31 | `makeKey` joins with `/` and stringifies `undefined`, so distinct version keys can share a map key |
| SemVer.ParseFormat | app/validators/collection-bundles-validator.js:69 | every well-formed version formats to a string that parses back to it |
| SemVer.FormatParse | app/validators/collection-bundles-validator.js:69 | a string parses only if it is the canonical text of the well-formed version it parses to |
| SemVer.CompareAntisymmetric | app/validators/collection-bundles-validator.js:73 | precedence of a over b is the reverse of b over a |
| SemVer.CompareTransitive | app/validators/collection-bundles-validator.js:73 | precedence is transitive |
| SemVer.PrereleaseBeforeRelease | app/validators/collection-bundles-validator.js:73 | a pre-release has lower precedence than its release |
| SemVer.BaselineParses | app/validators/collection-bundles-validator.js:35 | the default `2.0.0` is a valid version 2.0.0 |
| SemVer.Parse | app/validators/collection-bundles-validator.js:69 | definition: the SemVer 2.0.0 grammar (three numeric identifiers without leading zeros, optional pre-release and build identifiers); `ParseFormat` and `FormatParse` make it the inverse of `Format` |
| SemVer.Compare | app/validators/collection-bundles-validator.js:73 | definition: precedence as section 11 of SemVer 2.0.0 gives it, major, minor and patch numerically, then pre-release, build ignored; the three lemmas above are its order laws |
| SemVer.GreaterThan | app/validators/collection-bundles-validator.js:73 | `semver.gt`: strictly higher precedence |
| BundleImport.ForceImportParameters | app/controllers/collection-bundles-controller.js:12-28 | the parameters never contain `all`; `all` among the values gives exactly the two available ones, otherwise the values in order (an array's values all kept, a single empty value dropped) |
| BundleImport.ExtractForceImportParameters | app/controllers/collection-bundles-controller.js:12-28 | the pushing and searching loop returns exactly the parameters above |
| BundleImport.ForceImportParametersIdempotent | app/controllers/collection-bundles-controller.js:12-28 | extracting from an extraction's result gives it back |
| BundleImport.ForceImportSingle | app/controllers/collection-bundles-controller.js:14-24 | a single value gives `[]` when empty, both parameters for `all`, else itself |
| BundleImport.Requested | app/controllers/collection-bundles-controller.js:14-20 | definition: the values of a truthy `forceImport`: all of an array, a non-empty string, else none |
| BundleImport.ReportOf | app/controllers/collection-bundles-controller.js:59-93 | the report's flags in terms of the bundle (no collection, several, first without id, never duplicate-collection) and its counts: repeats and rejected versions of the bundle when the service reported errors, else 0 |
| BundleImport.ReportFromIssues | app/controllers/collection-bundles-controller.js:36-93 | definition of `errorResult` from the issues and the service's errors: `noCollection` before `moreThanOneCollection`, the counts only with service errors, the errors appended; `FoldIssues` computes it and `ReportOf` reads it off the bundle |
| BundleImport.FoldIssues | app/controllers/collection-bundles-controller.js:51-93 | the step-by-step report is that one, and an error is found iff a hard error, a spec-version count or a service error is present |
| BundleImport.AcceptedHasOneCollection | app/controllers/collection-bundles-controller.js:95-121 | a bundle that is not rejected has exactly one collection, the one passed to the import |
| BundleImport.CollectionFlagsExclusive | app/controllers/collection-bundles-controller.js:59-68 | `noCollection` and `moreThanOneCollection` are never both set |
| BundleImport.HardRejection | app/controllers/collection-bundles-controller.js:99-105 | definition: no collection, several, a collection without id, or duplicate objects; no force-import parameter overrides these |
| BundleImport.SpecVersionRejection | app/controllers/collection-bundles-controller.js:107-111 | definition: spec-version violations without `attack-spec-version-violations` among the parameters |
| BundleImport.Rejected | app/controllers/collection-bundles-controller.js:96-112 | definition: a 400 before the import, for a hard error or an unforced spec-version violation |
| BundleImport.ForceAllOverridesOnlySpecVersion | app/controllers/collection-bundles-controller.js:99-112 | with `forceImport=all` a report is rejected exactly when it has a hard error |
| BundleImport.DuplicatesRejectOnlyWithValidationErrors | app/controllers/collection-bundles-controller.js:78-105 | with one well-formed collection and repeated keys, the bundle is rejected iff the service's validation reported errors |
| BundleImport.ImportResponse | app/controllers/collection-bundles-controller.js:121-143 | 201 with the collection iff imported; 400 with `duplicateCollection` set iff the error is the duplicate-collection one; otherwise 500 |
| BundleImport.ImportBundle | app/controllers/collection-bundles-controller.js:30-144 | a rejected bundle gets 400 with its report and no import call; otherwise the import is called with the first collection, `previewOnly || checkOnly` and the force parameters, and its outcome mapped as above |
| BundleImport.ExportBundle | app/controllers/collection-bundles-controller.js:146-171 | `collectionModified` without `collectionId` is 400 with no service call; else 200 with the bundle, 404 for not found, 500 otherwise |
| IntegrityTests.CreateAndLogIssue | app/lib/data-integrity-tests.js:16-34 | the issue references (`id`, `modified`) and carries the document iff `objectRefsOnly` is false |
| IntegrityTests.IssuesOf | app/lib/data-integrity-tests.js:16-34 | one issue per document, in order |
| IntegrityTests.RefsOnlyIssues | app/lib/data-integrity-tests.js:25-27 | with `objectRefsOnly` no issue carries a document |
| IntegrityTests.RevokedByIndex | app/lib/data-integrity-tests.js:43-48 | definition of `sourceObjectMap` after n relationships: each `revoked-by` one stored under its `source_ref`, a later one replacing an earlier |
| IntegrityTests.RevokedIssueFor | app/lib/data-integrity-tests.js:51-65 | definition: one revoked object's issue, chosen in the source's order: no relationship, a revoked one, a deprecated one, else none |
| IntegrityTests.RevokedByIndexKeys | app/lib/data-integrity-tests.js:43-48 | a source is indexed iff some `revoked-by` relationship comes from it |
| IntegrityTests.RevokedByIndexLastWins | app/lib/data-integrity-tests.js:43-48 | the indexed relationship is the last `revoked-by` one from that source |
| IntegrityTests.RevokedObjectsHaveRevokedByRelationships | app/lib/data-integrity-tests.js:36-68 | the two loops return exactly the specification: each revoked object's issue from the index |
| IntegrityTests.RevokedIssueForRelationships | app/lib/data-integrity-tests.js:51-65 | at most one issue per revoked object: missing relationship, else revoked, else deprecated, decided by the last `revoked-by` relationship |
| IntegrityTests.RevokedObjectIssuesOnlyRevoked | app/lib/data-integrity-tests.js:40-66 | no more issues than revoked objects, each referencing a revoked object of the snapshot |
| IntegrityTests.NoDeprecatedRelationships | app/lib/data-integrity-tests.js:70-83 | one issue per deprecated relationship, in input order |
| IntegrityTests.NoRevokedRelationships | app/lib/data-integrity-tests.js:85-98 | one issue per revoked relationship, in input order |
| IntegrityTests.FlaggedRelationshipIssues | app/lib/data-integrity-tests.js:70-98 | the flagged relationships are in input order, each has its issue and every issue is about one of them |
| IntegrityTests.ModifiedNotBeforeCreated | app/lib/data-integrity-tests.js:100-122 | the loop returns each object's timestamp issues in order |
| IntegrityTests.TimestampIssuesFor | app/lib/data-integrity-tests.js:105-118 | definition: marking-definitions skipped; a `getTime` that throws gives the error issue; `created` after `modified` gives the rule's issue |
| IntegrityTests.TimestampVerdict | app/lib/data-integrity-tests.js:106-118 | marking-definitions give nothing; a time `getTime` cannot read gives one error issue; otherwise one issue iff `created > modified`, and none when a time is an invalid `Date` (`NaN` compares false) |
| IntegrityTests.TimestampIssuesInOrder | app/lib/data-integrity-tests.js:103-120 | the scan goes on after an error, each object's issues following those of the objects before it |
| IntegrityService.PerformDataIntegrityTest | app/services/data-integrity-service.js:5-15 | the report's three entries are the three rules' outputs with `objectRefsOnly`; deprecated relationships are not tested; no issue carries a document |
| IntegrityService.RefsOnlyReport | app/services/data-integrity-service.js:6-11 | every issue of the three rules run with `objectRefsOnly` carries only a reference |
| KillChain.KillChainName | app/services/tactics-service.js:22 | definition: `config.domainToKillChainMap[domain]`, `undefined` for a domain the map does not have |
| KillChain.KillChainNames | app/services/tactics-service.js:22 | one kill-chain name per domain of the tactic, through the configured map |
| KillChain.Slice | app/services/tactics-service.js:31 | `slice` clamps both ends to the length |
| KillChain.GetPageOfData | app/services/tactics-service.js:27-32 | `limit = 0` gives `data[offset..]`; otherwise `data[offset..min(offset+limit, length)]`, at most `limit` long; an offset past the end gives `[]` |
| KillChain.ConsecutivePages | app/services/techniques-service.js:25-30 | two consecutive pages of one size are the page of twice that size |
| TacticsService.TechniqueMatchesTactic | app/services/tactics-service.js:16-25 | definition: some kill-chain phase of the technique has the tactic's short name and the kill-chain name of one of its domains; `TechniqueMatchesTacticIff` unfolds it |
| TacticsService.TechniqueMatchesTacticIff | app/services/tactics-service.js:16-25 | a technique matches iff some phase has the tactic's short name and the kill-chain name of one of its domains |
| TacticsService.UnmappedDomainMatchesNamelessPhase | app/services/tactics-service.js:22-23 | an unmapped domain yields `undefined`, which matches a phase without a kill-chain name |
| TacticsService.RetrieveTechniquesForTactic | app/services/tactics-service.js:35-86 | as written: `stixId`, then `modified` checked before the repository is called; a lookup failure passed on, null for a missing tactic; the technique list fetched only for a found tactic, its failure wrapped; never a page, a type error once it is fetched |
| TacticsService.RetrieveTechniquesForTacticCorrected | app/services/tactics-service.js:35-86 | the checks in that order; null for a missing tactic; a page exactly when the list is fetched, the page of the order-preserving filter |
| TacticsService.TypeErrorInsteadOfPage | app/services/tactics-service.js:78 | one matching technique: a type error as written, a page with it as intended |
| TacticsService.FilteredTechniques | app/services/tactics-service.js:78-79 | the unpaged result is an order-preserving subsequence, all matching, missing none that matches |
| TechniquesService.TacticMatchesTechnique | app/services/techniques-service.js:13-23 | definition: the same test with the arguments the other way round; `MatchesAgree` proves the two agree |
| TechniquesService.MatchesAgree | app/services/techniques-service.js:13-23 | `tacticMatchesTechnique(technique)(tactic)` equals `techniqueMatchesTactic(tactic)(technique)` |
| TechniquesService.RetrieveTacticsForTechnique | app/services/techniques-service.js:33-109 | as written: `stixId`, then `modified` checked before the repository is called; a lookup failure passed on, null for a missing technique; the tactics fetched only for a found technique, their failure wrapped; never a page, a type error once they are fetched |
| TechniquesService.RetrieveTacticsForTechniqueCorrected | app/services/techniques-service.js:33-109 | null for a missing technique; a page exactly when the tactics are fetched, the page of the order-preserving filter |
| TechniquesService.TypeErrorInsteadOfTactics | app/services/techniques-service.js:86 | one matching tactic: a type error as written, a page with it as intended |
| TechniquesService.PagedTactics | app/services/techniques-service.js:86-87 | the page is an order-preserving subsequence of all tactics, every tactic on it matches, and none that matches is filtered out before paging |
| Matrices.MissingVersionKey | app/services/matrices-service.js:180-190 | no error iff both are truthy; `stixId` is checked before `modified` |
| Matrices.QueryError | app/services/matrices-service.js:193-201 | a `CastError` is a badly formatted `stixId`; any other error is passed on |
| Matrices.SaveError | app/services/matrices-service.js:353-361 | `MongoServerError` 11000 is `duplicateId`; any other error is passed on |
| Matrices.RetrieveById | app/services/matrices-service.js:112-175 | missing `stixId`; `all` gives every version; `latest` a list of at most one, empty iff none; a failed query of either kind is mapped (`CastError` to a badly formatted `stixId`); any other `versions` is an invalid query-string parameter `versions` |
| Matrices.RetrieveVersionById | app/services/matrices-service.js:177-215 | the parameter checks, then the version or nothing |
| Matrices.UpdateFull | app/services/matrices-service.js:365-413 | the parameter checks; a failed lookup mapped; nothing for a missing version; otherwise the document saved has every property of `data` and the found document's other properties, and the reply is the save's result with the duplicate-index mapping |
| Matrices.DeleteVersionById | app/services/matrices-service.js:415-436 | the parameter checks, then the removed version or nothing, errors passed on |
| Matrices.VersionKeyChecksAgree | app/services/matrices-service.js:366-376 | the one-version operations give the same missing-parameter error, `stixId` first, whatever the database holds |
| Matrices.AttackIdPrefix | app/services/matrices-service.js:279 | `split(".")[0]`: a prefix without `.`, followed by `.` or the end |
| Matrices.Grouped | app/services/matrices-service.js:266-283 | definition of the organisation: each super-technique, in order, with the sub-techniques whose prefix is its `attack_id`, in order; as many entries as super-techniques |
| Matrices.OrganizeSubtechniques | app/services/matrices-service.js:266-283 | the two loops give exactly `Grouped`: the super-techniques in order, each with the sub-techniques whose prefix is its `attack_id` |
| Matrices.SubtechniquesOf | app/services/matrices-service.js:277-282 | the inner loop keeps exactly the sub-techniques with that prefix, in order |
| Matrices.GroupedTechniques | app/services/matrices-service.js:268-283 | the super-techniques are exactly those with `x_mitre_is_subtechnique === false`; under each, exactly the other techniques whose prefix is its `attack_id`, in order |
| Matrices.ResolveTactic | app/services/matrices-service.js:261-285 | one reference's loop body gives exactly `Resolve`: nothing for an empty lookup, else the first tactic with its grouped techniques |
| Matrices.TacticsTechniques | app/services/matrices-service.js:259-286 | definition of the intended properties' values: each found tactic stored under its name, a later one replacing an earlier |
| Matrices.TacticsTechniquesLookup | app/services/matrices-service.js:285-286 | a name is a key iff a reference finds a tactic with it, and its entry comes from the last such reference |
| Matrices.FirstFinding | app/services/matrices-service.js:260-286 | the first reference that finds a tactic with a name, and none before it finds one; -1 when none does |
| Matrices.TacticOrderKeys | app/services/matrices-service.js:259-286 | the property order lists exactly the names that are properties of the intended object |
| Matrices.TacticOrderMember | app/services/matrices-service.js:260-286 | a name is in the property order iff some reference finds a tactic with it |
| Matrices.TacticOrderPair | app/services/matrices-service.js:260-286 | of two names in the property order, the earlier was first found by an earlier reference |
| Matrices.TacticOrderFirstFound | app/services/matrices-service.js:259-286 | the properties are exactly the names found, in the order of their first finding, none twice (insertion order of a JavaScript object) |
| Matrices.TacticOrderSnoc | app/services/matrices-service.js:286 | one more reference appends the tactic's name iff it is not yet a property |
| Matrices.OnlySuperTechniquesAttached | app/services/matrices-service.js:285 | only super-techniques are attached to a tactic |
| Matrices.OrganizeTactics | app/services/matrices-service.js:258-288 | the outer loop gives exactly the intended object: the property order `TacticOrder` and the values `TacticsTechniques` of the found tactics |
| Matrices.RetrieveVersionTechniquesById | app/services/matrices-service.js:219-297 | the parameter checks, query-error mapping, nothing for a missing version, else the organised tactics in property order; it composes the corrected loop (Findings rows 3 and 4): a reference whose tactic is not found is skipped, and the techniques lookup is called as a function of the tactics service, where lines 263-264 throw |
| Matrices.TacticsTechniquesAsWritten | app/services/matrices-service.js:259-264 | definition of the loop as written: it stops at the first reference that throws, with the reason |
| Matrices.AsWrittenThrowsAtFirstReference | app/services/matrices-service.js:259-264 | as written, the loop throws at reference 0 whenever there is one: a type error for a tactic not found, the unbound techniques call for one found; only an empty list assembles the empty object |
| Matrices.AsWrittenGivesNoReply | app/services/matrices-service.js:244-297 | as written, the callback is never called exactly when the checks pass and the version is found with at least one tactic reference; otherwise the reply is the intended one, with an empty object for no references |
| Matrices.RetrieveVersionTechniquesByIdAsWritten | app/services/matrices-service.js:219-297 | as written: the same replies as the corrected version, except `None` (the callback is never called) for a found version with at least one tactic reference; `AsWrittenGivesNoReply` states it |
| Matrices.FoundTacticGivesNoReply | app/services/matrices-service.js:227-264 | one tactic found: no reply as written, that tactic under its name as intended |
| Matrices.MissingTacticThrows | app/services/matrices-service.js:261-264 | a matrix whose only tactic is not found: a throw at reference 0 as written, an empty result as intended |
| Matrices.ReachesSave | app/services/matrices-service.js:310-331 | definition: importing, or the marking-definition step, the identity read and (for a truthy id) the lookup by id all resolve |
| Matrices.Create | app/services/matrices-service.js:300-363 | importing leaves the data as it is; otherwise a rejection of the marking-definition step, of the identity read or of the lookup by id (made only for a truthy id), in that order, ends it with that error as it is and nothing saved; past them the spec version is defaulted, a new version of an existing matrix gets only the modifier, a new one keeps its id or gets `x-mitre-matrix--<uuid>` and both references; a save error is mapped; a reply is a document iff the save is reached and succeeds |
| UserAccounts.WithEffectiveRole | app/services/user-accounts-service.js:10-16 | role `none` for pending or inactive accounts, otherwise unchanged; status and identity unaffected |
| UserAccounts.UserAccountAsIdentity | app/services/user-accounts-service.js:20-30 | an `identity`, spec version `2.1`, class `individual`, named by the display name, with the account's id and timestamps |
| UserAccounts.EffectiveRoleIdempotent | app/services/user-accounts-service.js:13-15 | applying the effective role twice is applying it once |
| UserAccounts.AddEffectiveRole | app/services/user-accounts-service.js:10-16 | in place, the account becomes its effective role; a null account is left alone |
| UserAccounts.DerivedTotalCount | app/services/user-accounts-service.js:52-55 | the first count entry, or 0 when there is none |
| UserAccounts.DecorateAccount | app/services/user-accounts-service.js:44-49 | one account gets its effective role and, when asked for, its identity |
| UserAccounts.RetrieveAll | app/services/user-accounts-service.js:33-68 | every account is decorated in place; the same accounts come back, inside the envelope with the derived total when pagination is asked for |
| UserAccounts.IdentityRequestedAsWritten | app/services/user-accounts-service.js:83 | `options & options.includeStixIdentity` throws for undefined options and is always 0 otherwise |
| UserAccounts.IdentityRequested | app/services/user-accounts-service.js:83 | the intended test: options given and `includeStixIdentity` set |
| UserAccounts.BitwiseAndDropsIdentity | app/services/user-accounts-service.js:83 | with `includeStixIdentity` set, the written test is false and the intended one true |
| UserAccounts.RetrieveById | app/services/user-accounts-service.js:70-93 | missing id, repository error and not found in that order; otherwise the account, decorated, untouched on every error; it composes the corrected identity test (Findings row 5): the identity is attached when asked for, where line 83 never attaches it and throws for undefined options |
| UserAccounts.NewUserAccount | app/services/user-accounts-service.js:129-134 | given fields kept; a missing id becomes `identity--<uuid>`, a missing `created` the first clock reading; a missing `modified` the given `created`, or else the second clock reading |
| UserAccounts.TimestampsFromTwoReadings | app/services/user-accounts-service.js:132-133 | with neither timestamp given, two different clock readings make `modified` differ from `created` |
| UserAccounts.Create | app/services/user-accounts-service.js:119-147 | a duplicate email iff there is an email and it is taken; the lookup's own error iff there is an email and the lookup is rejected; in both cases nothing saved; otherwise the new document is saved, and the outcome is the save's error as it is (line 145) or the saved account with its effective role |
| UserAccounts.CreatedTimestamps | app/services/user-accounts-service.js:129-134 | a created account has an id, and one given only `created` is modified at that time |
| UserAccounts.ExportedAddEffectiveRoleAsWritten | app/services/user-accounts-service.js:18 | the export is `undefined` |
| UserAccounts.ExportedAddEffectiveRole | app/services/user-accounts-service.js:10-18 | the intended export is the effective-role function |
| UserAccounts.ExportIsUndefined | app/services/user-accounts-service.js:18 | calling the export from outside fails as written and applies the role as intended |

## Left out

- I/O and its surroundings: logging, the Express responses beyond status and body, and the MongoDB repositories and aggregation pipelines. Repository results, the other services' results and validation results are parameters. So are `uuid.v4()`, the current time, the configured spec version and the organisation identity.
- The collection-bundles service is not part of this model. Its `validateBundle` errors and its `importBundle` and `exportBundle` results are inputs. The error messages `Duplicate collection` and `Not found` are assumed constants. So is the force-import parameter `attack-spec-version-violations`.
- SemVer.Parse: the strict SemVer 2.0.0 grammar stands in for `semver.valid`, which differs from it in four ways. It accepts a leading `v` (`v2.0.0`) even with `loose` off, trims surrounding whitespace, rejects strings longer than 256 characters, and rejects numbers above `Number.MAX_SAFE_INTEGER`. So an object whose spec version is `v2.0.0` gets a spec-version issue in the model but none at app/validators/collection-bundles-validator.js:69. Loose parsing, coercion and the rest of the `semver` package are not modelled either.
- Async and callback sequencing: the model has no interleaving. `IntegrityService.PerformDataIntegrityTest` gives every rule the same snapshot, although the source fetches the snapshots separately.
- `logIssues`, Ajv schema loading and `campaignConformsToSchema` are left out, because they read files and call a foreign validator.
- `BaseService.paginate`, applied to the page in both retrievals, is not visible here. The modelled page is `pagedResults`. The circular `require` between the tactics and techniques services is not modelled.
- `KillChain.GetPageOfData`: offsets and limits are natural numbers. A negative, absent or non-numeric value is not modelled.
- `KillChain.Tactic`: `x_mitre_domains` and `kill_chain_phases` are taken as present lists. A missing one would throw in the source.
- Matrices.RetrieveVersionTechniquesById: the per-tactic lookups are inputs, and `retrieveTacticById` is taken to work and to return a list. As written it is `util.promisify` of the tactics service's `retrieveById` without its instance (line 225), like the techniques lookup of Findings row 4. `BaseService`, which defines `retrieveById`, is not part of this model, so whether that call also throws is not settled here; either way the reply is lost as `Matrices.AsWrittenGivesNoReply` states.
- Matrices.OrganizeTactics: the property order is insertion order. JavaScript lists integer-like property names (such as `"12"`) first, in ascending order; tactic names are taken not to be of that form.
- Matrices.UpdateFull: a document is its top-level properties. Mongoose's casting and validation of the values `Object.assign` copies in, and the document the save returns, are inputs or not modelled.
- Matrices.OrganizeSubtechniques: the grouping is built on values. Setting `subtechniques` on the shared technique object in place is not captured.
- Matrices.Create: what `setDefaultMarkingDefinitions` writes into the document is left out; only its rejection is modelled. The saved document is taken to be the one built.
- `attack_id` is taken as a string. A technique without one throws in the source.
- UserAccounts.Create: it works on values. The repository's saved document is taken to be the one passed to `save`.
- `retrieveByEmail`, `updateFull`, `delete`, `addCreatedByUserAccount` and `retrieveTeamsByUserId` in the user-accounts service are outside the modelled core.
- `getLatest` in the user-accounts service is also outside the modelled core.

## Findings

| source | as written | input that shows it | evidently intended | confidence | as-written member | corrected member |
|---|---|---|---|---|---|---|
| app/services/tactics-service.js:78 | `this.techniqueMatchesTactic(tactic)` looks up a static method on the instance, gets `undefined` and throws | a found tactic, and a fetched list with one technique in its phase | filter with `TacticsService.techniqueMatchesTactic(tactic)` and return that page | high, not executed | TacticsService.RetrieveTechniquesForTactic | TacticsService.RetrieveTechniquesForTacticCorrected |
| app/services/techniques-service.js:86 | `this.tacticMatchesTechnique(technique)` and `this.getPageOfData` are static methods looked up on the instance; the call throws | a found technique, and a fetched list with one tactic in its phase | filter with `TechniquesService.tacticMatchesTechnique(technique)` and page the result | high, not executed | TechniquesService.RetrieveTacticsForTechnique | TechniquesService.RetrieveTacticsForTechniqueCorrected |
| app/services/matrices-service.js:261-264 | the lookup returns a list, which is always truthy, so a tactic that is not found reaches `tactic[0]['stix']` and throws | a matrix whose one tactic reference finds no tactic | skip references whose tactic is not found | high, not executed | Matrices.TacticsTechniquesAsWritten | Matrices.OrganizeTactics |
| app/services/matrices-service.js:229 | `retrieveTechniquesForTactic` is taken off the tactics service without its instance, so `this.repository` at app/services/tactics-service.js:50 throws; with no callback passed, line 55 throws again, the loop's `await` throws inside the lookup's callback, and the request's callback is never called | a matrix version whose one tactic reference finds a tactic | call the technique lookup bound to the tactics service and reply with the organised tactics | high, not executed | Matrices.RetrieveVersionTechniquesByIdAsWritten | Matrices.RetrieveVersionTechniquesById |
| app/services/user-accounts-service.js:83 | `options & options.includeStixIdentity` is a bitwise and; an object converts to 0, so the identity is never attached | `includeStixIdentity: true` | `options && options.includeStixIdentity` | high, not executed | UserAccounts.IdentityRequestedAsWritten | UserAccounts.IdentityRequested |
| app/services/user-accounts-service.js:18 | `this.addEffectiveRole` at module level reads the still-empty exports object, so `undefined` is exported | any caller outside the module that calls `addEffectiveRole` | export the module's own `addEffectiveRole` | high, not executed | UserAccounts.ExportedAddEffectiveRoleAsWritten | UserAccounts.ExportedAddEffectiveRole |
