/**
 * The import and export decisions of the collection-bundles controller: which
 * force-import parameters a request asks for, how the validator's issues are folded
 * into the error report, when a bundle is rejected, and how the import and export
 * services' outcomes become HTTP responses.
 *
 * The collection-bundles service is not part of this model: its `validateBundle`
 * errors, its `importBundle` callback and its `exportBundle` result are inputs.
 */
module BundleImport {
  import opened Common
  import opened BundleValidator
  import SemVer

  // ---------------------------------------------------------------- requests and responses

  /** A query-string value: absent, given once, or repeated. */
  datatype QueryValue = Absent | Single(s: string) | Many(values: seq<string>)

  /** The force-import parameters the service defines. */
  const AttackSpecVersionViolations: string := "attack-spec-version-violations"
  const DuplicateCollectionParameter: string := "duplicate-collection"
  const AvailableForceImportParameters: seq<string> := [AttackSpecVersionViolations, DuplicateCollectionParameter]

  /** The error messages the service uses to tell its failures apart. */
  const DuplicateCollectionError: string := "Duplicate collection"
  const NotFoundError: string := "Not found"

  /** Validation errors reported by the service's own schema check, passed through untouched. */
  type ValidationError = string

  datatype ImportQuery = ImportQuery(forceImport: QueryValue, previewOnly: Prop, checkOnly: Prop)

  datatype BundleErrors = BundleErrors(
    noCollection: bool,
    moreThanOneCollection: bool,
    duplicateCollection: bool,
    badlyFormattedCollection: bool)

  datatype Summary = Summary(duplicateObjectInBundleCount: nat, invalidAttackSpecVersionCount: nat)

  datatype ObjectErrors = ObjectErrors(summary: Summary, errors: seq<ValidationError>)

  /** The `errorResult` sent back with a 400. */
  datatype ErrorReport = ErrorReport(bundleErrors: BundleErrors, objectErrors: ObjectErrors)

  const EmptyReport: ErrorReport :=
    ErrorReport(BundleErrors(false, false, false, false), ObjectErrors(Summary(0, 0), []))

  datatype ImportOptions = ImportOptions(previewOnly: Prop, forceImportParameters: seq<string>)

  datatype ExportOptions = ExportOptions(collectionId: Prop, collectionModified: Prop, previewOnly: Prop, includeNotes: Prop)

  /** A call the controller makes into the collection-bundles service. */
  datatype ServiceCall =
    | ImportCall(collection: BundleObject, objects: seq<BundleObject>, options: ImportOptions)
    | ExportCall(exportOptions: ExportOptions)

  /** The stored collection the import hands back, and the bundle an export produces. */
  datatype ImportedCollection = ImportedCollection(stix: BundleObject)
  datatype ExportedBundle = ExportedBundle(objects: seq<BundleObject>)

  datatype ImportResult = Imported(collection: ImportedCollection) | ImportFailed(message: string)
  datatype ExportResult = Exported(bundle: ExportedBundle) | ExportFailed(message: string)

  datatype Body = Report(report: ErrorReport) | Collection(imported: ImportedCollection) | Bundle(bundle: ExportedBundle) | Message(text: string)

  /** The status and body sent, and the service call made on the way, if any. */
  datatype Response = Response(status: int, body: Body, serviceCall: Option<ServiceCall>)

  const ImportServerError: string := "Unable to import collection, unable to create collection index. Server error."
  const ExportMissingId: string := "collectionId is required when providing collectionModified"
  const ExportNotFound: string := "Collection not found"
  const ExportServerError: string := "Unable to export collection."

  // ---------------------------------------------------------------- force-import parameters

  /** The values of `forceImport` when it is truthy: an array always is, a string when it is not empty. */
  function Requested(forceImport: QueryValue): seq<string> {
    match forceImport
    case Absent => []
    case Single(s) => if s != "" then [s] else []
    case Many(values) => values
  }

  /** What `extractForceImportParameters` returns: `all` stands for every available parameter. */
  function ForceImportParameters(forceImport: QueryValue): (r: seq<string>)
    ensures "all" !in r
    ensures "all" in Requested(forceImport) ==> r == AvailableForceImportParameters
    ensures "all" !in Requested(forceImport) ==> r == Requested(forceImport)
  {
    var params := Requested(forceImport);
    if "all" in params then AvailableForceImportParameters else params
  }

  /** `extractForceImportParameters`: collect the values, then look for `all`. */
  method ExtractForceImportParameters(forceImport: QueryValue) returns (params: seq<string>)
    ensures params == ForceImportParameters(forceImport)
  {
    params := [];
    if forceImport.Many? || (forceImport.Single? && forceImport.s != "") {
      if forceImport.Many? {
        params := params + forceImport.values;
      } else {
        params := params + [forceImport.s];
      }
      var i := 0;
      while i < |params| && params[i] != "all"
        invariant 0 <= i <= |params|
        invariant "all" !in params[..i]
      {
        i := i + 1;
      }
      if i < |params| {
        return AvailableForceImportParameters;
      }
      assert params[..i] == params;
    }
  }

  /** Extraction applied to its own result changes nothing. */
  lemma ForceImportParametersIdempotent(forceImport: QueryValue)
    ensures ForceImportParameters(Many(ForceImportParameters(forceImport))) == ForceImportParameters(forceImport)
  {
  }

  /** A request for just one parameter asks for that parameter, or for both when it is `all`. */
  lemma ForceImportSingle(s: string)
    ensures ForceImportParameters(Single(s)) == if s == "" then [] else if s == "all" then AvailableForceImportParameters else [s]
  {
    if s != "" && s != "all" {
      assert "all" !in [s];
    }
  }

  // ---------------------------------------------------------------- the error report

  /** The report `importBundle` builds from the validator's issues and the service's validation errors. */
  function ReportFromIssues(issues: seq<Issue>, validationErrors: seq<ValidationError>): ErrorReport {
    var noCollection := Any(HasRule(BundleMayNotHaveZeroCollections), issues);
    var counted := |validationErrors| > 0;
    ErrorReport(
      BundleErrors(
        noCollection,
        !noCollection && Any(HasRule(BundleMayNotHaveMoreThanOneCollection), issues),
        false,
        Any(HasRule(CollectionMustHaveAnId), issues)),
      ObjectErrors(
        Summary(
          if counted then CountRule(issues, ObjectRefMustBeUnique) else 0,
          if counted then CountRule(issues, AttackSpecVersionMustBeValid) else 0),
        validationErrors))
  }

  /** The report for a bundle, field by field in terms of the bundle's objects. */
  function ReportOf(objects: seq<BundleObject>, rejects: BundleObject -> bool, validationErrors: seq<ValidationError>): (r: ErrorReport)
    ensures r.bundleErrors.noCollection <==> |Collections(objects)| == 0
    ensures r.bundleErrors.moreThanOneCollection <==> |Collections(objects)| > 1
    ensures r.bundleErrors.badlyFormattedCollection <==> |Collections(objects)| > 0 && !Truthy(Collections(objects)[0].id)
    ensures !r.bundleErrors.duplicateCollection
    ensures r.objectErrors.summary.duplicateObjectInBundleCount
      == if |validationErrors| > 0 then |objects| - |KeySet(objects, |objects|)| else 0
    ensures r.objectErrors.summary.invalidAttackSpecVersionCount
      == if |validationErrors| > 0 then CountViolations(objects, rejects) else 0
    ensures r.objectErrors.errors == validationErrors
  {
    var issues := Validation(objects, rejects);
    CollectionCountIssued(objects, rejects);
    MissingCollectionId(objects, rejects);
    AnyIffCount(HasRule(BundleMayNotHaveZeroCollections), issues);
    AnyIffCount(HasRule(BundleMayNotHaveMoreThanOneCollection), issues);
    AnyIffCount(HasRule(CollectionMustHaveAnId), issues);
    DuplicateTotal(objects, rejects);
    SpecVersionTotalAll(objects, rejects);
    ReportFromIssues(issues, validationErrors)
  }

  /** The steps of `importBundle` that fill in `errorResult` and `errorFound`. */
  method FoldIssues(issues: seq<Issue>, validationErrors: seq<ValidationError>) returns (errorResult: ErrorReport, errorFound: bool)
    ensures errorResult == ReportFromIssues(issues, validationErrors)
    ensures errorFound <==> HardRejection(errorResult) || errorResult.objectErrors.summary.invalidAttackSpecVersionCount > 0 || |validationErrors| > 0
  {
    errorResult := EmptyReport;
    errorFound := false;
    if Any(HasRule(BundleMayNotHaveZeroCollections), issues) {
      errorResult := errorResult.(bundleErrors := errorResult.bundleErrors.(noCollection := true));
      errorFound := true;
    } else if Any(HasRule(BundleMayNotHaveMoreThanOneCollection), issues) {
      errorResult := errorResult.(bundleErrors := errorResult.bundleErrors.(moreThanOneCollection := true));
      errorFound := true;
    }
    if Any(HasRule(CollectionMustHaveAnId), issues) {
      errorResult := errorResult.(bundleErrors := errorResult.bundleErrors.(badlyFormattedCollection := true));
      errorFound := true;
    }

    if |validationErrors| > 0 {
      errorFound := true;
      var duplicateObjectCount := CountRule(issues, ObjectRefMustBeUnique);
      if duplicateObjectCount > 0 {
        errorResult := errorResult.(objectErrors := errorResult.objectErrors.(summary :=
          errorResult.objectErrors.summary.(duplicateObjectInBundleCount := duplicateObjectCount)));
      }
      var invalidAttackSpecVersionCount := CountRule(issues, AttackSpecVersionMustBeValid);
      if invalidAttackSpecVersionCount > 0 {
        errorResult := errorResult.(objectErrors := errorResult.objectErrors.(summary :=
          errorResult.objectErrors.summary.(invalidAttackSpecVersionCount := invalidAttackSpecVersionCount)));
      }
      errorResult := errorResult.(objectErrors := errorResult.objectErrors.(errors := errorResult.objectErrors.errors + validationErrors));
    }
  }

  /** The errors no force-import parameter overrides. */
  predicate HardRejection(r: ErrorReport) {
    || r.bundleErrors.noCollection
    || r.bundleErrors.moreThanOneCollection
    || r.bundleErrors.badlyFormattedCollection
    || r.objectErrors.summary.duplicateObjectInBundleCount > 0
  }

  /** Spec-version violations, unless the request forces them through. */
  predicate SpecVersionRejection(r: ErrorReport, forceImportParameters: seq<string>) {
    r.objectErrors.summary.invalidAttackSpecVersionCount > 0 && AttackSpecVersionViolations !in forceImportParameters
  }

  predicate Rejected(r: ErrorReport, forceImportParameters: seq<string>) {
    HardRejection(r) || SpecVersionRejection(r, forceImportParameters)
  }

  /** Only an accepted bundle reaches the import, and it then has exactly one collection. */
  lemma AcceptedHasOneCollection(objects: seq<BundleObject>, rejects: BundleObject -> bool, validationErrors: seq<ValidationError>, forceImportParameters: seq<string>)
    requires !Rejected(ReportOf(objects, rejects, validationErrors), forceImportParameters)
    ensures |Collections(objects)| == 1
  {
  }

  /** The zero-collections and more-than-one-collection flags are never both set. */
  lemma CollectionFlagsExclusive(objects: seq<BundleObject>, rejects: BundleObject -> bool, validationErrors: seq<ValidationError>)
    ensures var e := ReportOf(objects, rejects, validationErrors).bundleErrors;
      !(e.noCollection && e.moreThanOneCollection)
  {
  }

  /** `forceImport=all` lets spec-version violations through and nothing else. */
  lemma ForceAllOverridesOnlySpecVersion(r: ErrorReport)
    ensures Rejected(r, ForceImportParameters(Single("all"))) <==> HardRejection(r)
  {
    assert ForceImportParameters(Single("all")) == AvailableForceImportParameters;
  }

  /**
   * Repeated objects reject the bundle whatever the query asks for, but only when the
   * service's own validation also reported errors: the summary counts are filled in
   * only then.
   */
  lemma DuplicatesRejectOnlyWithValidationErrors(objects: seq<BundleObject>, rejects: BundleObject -> bool, validationErrors: seq<ValidationError>, forceImportParameters: seq<string>)
    requires |Collections(objects)| == 1 && Truthy(Collections(objects)[0].id)
    requires |KeySet(objects, |objects|)| < |objects|
    ensures Rejected(ReportOf(objects, rejects, validationErrors), forceImportParameters) <==> |validationErrors| > 0
  {
  }

  // ---------------------------------------------------------------- import

  /** The response for what the import callback reports. */
  function ImportResponse(result: ImportResult, report: ErrorReport, call: ServiceCall): (response: Response)
    ensures response.serviceCall == Some(call)
    ensures response.status == 201 <==> result.Imported?
    ensures response.status == 400 <==> result.ImportFailed? && result.message == DuplicateCollectionError
    ensures response.status == 400 ==> response.body == Report(report.(bundleErrors := report.bundleErrors.(duplicateCollection := true)))
    ensures response.status == 201 ==> response.body == Collection(result.collection)
    ensures response.status in {201, 400, 500}
  {
    match result
    case ImportFailed(message) =>
      if message == DuplicateCollectionError then
        Response(400, Report(report.(bundleErrors := report.bundleErrors.(duplicateCollection := true))), Some(call))
      else
        Response(500, Message(ImportServerError), Some(call))
    case Imported(collection) =>
      Response(201, Collection(collection), Some(call))
  }

  /**
   * `importBundle`: validate, fold the issues into the report, reject a bundle with a
   * hard error or with unforced spec-version violations, else pass the first
   * collection to the import service and map its outcome.
   */
  method ImportBundle(
    query: ImportQuery,
    objects: seq<BundleObject>,
    maxSpecVersion: SemVer.Version,
    validationErrors: seq<ValidationError>,
    importService: ServiceCall -> ImportResult)
    returns (response: Response)
    ensures var r := ReportOf(objects, Rejects(maxSpecVersion), validationErrors);
      var params := ForceImportParameters(query.forceImport);
      && (Rejected(r, params) ==> response == Response(400, Report(r), None))
      && (!Rejected(r, params) ==>
            && |Collections(objects)| == 1
            && var call := ImportCall(Collections(objects)[0], objects, ImportOptions(JsOr(query.previewOnly, query.checkOnly), params));
               response == ImportResponse(importService(call), r, call))
  {
    var forceImportParameters := ExtractForceImportParameters(query.forceImport);
    var collections := Collections(objects);
    var issues := ValidateCollectionBundle(objects, maxSpecVersion);
    var errorResult, errorFound := FoldIssues(issues, validationErrors);
    ghost var r := ReportOf(objects, Rejects(maxSpecVersion), validationErrors);
    assert errorResult == r;

    if errorFound {
      if HardRejection(errorResult) {
        return Response(400, Report(errorResult), None);
      }
      if errorResult.objectErrors.summary.invalidAttackSpecVersionCount > 0
        && AttackSpecVersionViolations !in forceImportParameters
      {
        return Response(400, Report(errorResult), None);
      }
    }

    var options := ImportOptions(JsOr(query.previewOnly, query.checkOnly), forceImportParameters);
    var call := ImportCall(collections[0], objects, options);
    var result := importService(call);
    match result {
      case ImportFailed(message) =>
        if message == DuplicateCollectionError {
          errorResult := errorResult.(bundleErrors := errorResult.bundleErrors.(duplicateCollection := true));
          return Response(400, Report(errorResult), Some(call));
        } else {
          return Response(500, Message(ImportServerError), Some(call));
        }
      case Imported(importedCollection) =>
        return Response(201, Collection(importedCollection), Some(call));
    }
  }

  // ---------------------------------------------------------------- export

  /**
   * `exportBundle`: a `collectionModified` without a `collectionId` is refused before
   * the service is asked; the service's not-found becomes a 404, any other failure a 500.
   */
  method ExportBundle(query: ExportOptions, exportService: ServiceCall -> ExportResult) returns (response: Response)
    ensures Truthy(query.collectionModified) && !Truthy(query.collectionId)
      ==> response == Response(400, Message(ExportMissingId), None)
    ensures !(Truthy(query.collectionModified) && !Truthy(query.collectionId)) ==>
      && response.serviceCall == Some(ExportCall(query))
      && match exportService(ExportCall(query))
         case Exported(bundle) => response.status == 200 && response.body == Bundle(bundle)
         case ExportFailed(message) =>
           if message == NotFoundError then response.status == 404 && response.body == Message(ExportNotFound)
           else response.status == 500 && response.body == Message(ExportServerError)
  {
    if Truthy(query.collectionModified) && !Truthy(query.collectionId) {
      return Response(400, Message(ExportMissingId), None);
    }
    var options := ExportOptions(query.collectionId, query.collectionModified, query.previewOnly, query.includeNotes);
    var call := ExportCall(options);
    var result := exportService(call);
    match result {
      case Exported(bundle) =>
        return Response(200, Bundle(bundle), Some(call));
      case ExportFailed(message) =>
        if message == NotFoundError {
          return Response(404, Message(ExportNotFound), Some(call));
        } else {
          return Response(500, Message(ExportServerError), Some(call));
        }
    }
  }
}
