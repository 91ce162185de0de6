/** The data-integrity service: runs three of the rules on a snapshot and reports their issues by name. */
module IntegrityService {
  import opened Common
  import opened IntegrityTests

  /** The report: one entry per rule run; `noDeprecatedRelationships` is not among them. */
  datatype TestResults = TestResults(
    revokedObjectsHaveARevokedByRelationship: seq<Issue>,
    noRevokedRelationships: seq<Issue>,
    modifiedNotBeforeCreated: seq<Issue>)

  /** `performDataIntegrityTest`: every rule runs with `objectRefsOnly` set, and fills its entry. */
  method PerformDataIntegrityTest(attackObjects: seq<Document>, relationships: seq<Document>) returns (testResults: TestResults)
    ensures var options := Options(true);
      && testResults.revokedObjectsHaveARevokedByRelationship == RevokedObjectIssues(attackObjects, relationships, options)
      && testResults.noRevokedRelationships == IssuesOf(NoRevokedRelationshipsRule, Filter(IsRevoked, relationships), options)
      && testResults.modifiedNotBeforeCreated == FlatMap(TimestampCheck(options), attackObjects, |attackObjects|)
    ensures OnlyReferences(testResults)
  {
    var options := Options(true);
    testResults := TestResults([], [], []);
    var revoked := RevokedObjectsHaveRevokedByRelationships(attackObjects, relationships, options);
    testResults := testResults.(revokedObjectsHaveARevokedByRelationship := revoked);
    var revokedRelationships := NoRevokedRelationships(relationships, options);
    testResults := testResults.(noRevokedRelationships := revokedRelationships);
    var timestamps := ModifiedNotBeforeCreated(attackObjects, options);
    testResults := testResults.(modifiedNotBeforeCreated := timestamps);
    RefsOnlyReport(attackObjects, relationships);
  }

  /** No issue in the report carries the offending document. */
  predicate OnlyReferences(testResults: TestResults) {
    && (forall issue :: issue in testResults.revokedObjectsHaveARevokedByRelationship ==> issue.document.None?)
    && (forall issue :: issue in testResults.noRevokedRelationships ==> issue.document.None?)
    && (forall issue :: issue in testResults.modifiedNotBeforeCreated ==> issue.document.None?)
  }

  /** Issues created with `objectRefsOnly` carry references only, whichever rule made them. */
  lemma RefsOnlyReport(attackObjects: seq<Document>, relationships: seq<Document>)
    ensures var options := Options(true);
      OnlyReferences(TestResults(
        RevokedObjectIssues(attackObjects, relationships, options),
        IssuesOf(NoRevokedRelationshipsRule, Filter(IsRevoked, relationships), options),
        FlatMap(TimestampCheck(options), attackObjects, |attackObjects|)))
  {
    var options := Options(true);
    var revoked := Filter(IsRevoked, attackObjects);
    var revokedCheck := RevokedCheck(RevokedByIndex(relationships, |relationships|), options);
    forall issue | issue in RevokedObjectIssues(attackObjects, relationships, options)
      ensures issue.document.None?
    {
      FlatMapMember(revokedCheck, revoked, |revoked|, issue);
    }
    forall issue | issue in FlatMap(TimestampCheck(options), attackObjects, |attackObjects|)
      ensures issue.document.None?
    {
      FlatMapMember(TimestampCheck(options), attackObjects, |attackObjects|, issue);
    }
  }
}
