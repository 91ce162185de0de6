/**
 * The data-integrity rules: each scans a snapshot of the workspace's latest objects or
 * relationships and reports an issue per offending document.
 *
 * The snapshots the rules fetch from the attack-objects and relationships services are
 * parameters here.
 */
module IntegrityTests {
  import opened Common

  // ---------------------------------------------------------------- documents and issues

  /** A timestamp property: a `Date`, a `Date` whose time is `NaN`, or a value without `getTime`. */
  datatype DateValue = Date(time: int) | InvalidDate | NotADate

  /** The STIX properties the rules read, for objects and relationships alike. */
  datatype Stix = Stix(
    stixType: Prop,
    id: Prop,
    created: DateValue,
    modified: DateValue,
    revoked: bool,
    deprecated: bool,
    relationshipType: Prop,
    sourceRef: Prop)

  datatype Document = Document(stix: Stix)

  datatype ObjectRef = ObjectRef(id: Prop, modified: DateValue)

  /** An issue; `document` is the `object` field, the offending document unless only references were asked for. */
  datatype Issue = Issue(rule: string, objectRef: ObjectRef, document: Option<Document>)

  datatype Options = Options(objectRefsOnly: bool)

  const MissingRevokedBy: string := "revoked-object-missing-revoked-by-relationship"
  const RevokedRevokedBy: string := "revoked-object-has-revoked-revoked-by-relationship"
  const DeprecatedRevokedBy: string := "revoked-object-has-deprecated-revoked-by-relationship"
  const NoDeprecatedRelationshipsRule: string := "no-deprecated-relationships"
  const NoRevokedRelationshipsRule: string := "no-revoked-relationships"
  const ModifiedNotBeforeCreatedRule: string := "modified-not-before-created"
  const ErrorWhileTesting: string := "error-while-testing-object"

  /** `createAndLogIssue`: reference the document by `id` and `modified`, and attach it unless told not to. */
  function CreateAndLogIssue(rule: string, doc: Document, options: Options): (issue: Issue)
    ensures issue.rule == rule
    ensures issue.objectRef == ObjectRef(doc.stix.id, doc.stix.modified)
    ensures issue.document.Some? <==> !options.objectRefsOnly
    ensures issue.document.Some? ==> issue.document.value == doc
  {
    var issue := Issue(rule, ObjectRef(doc.stix.id, doc.stix.modified), None);
    if !options.objectRefsOnly then issue.(document := Some(doc)) else issue
  }

  /** One issue about each of `docs`, in order. */
  function IssuesOf(rule: string, docs: seq<Document>, options: Options): (r: seq<Issue>)
    ensures |r| == |docs|
    ensures forall k :: 0 <= k < |docs| ==> r[k] == CreateAndLogIssue(rule, docs[k], options)
  {
    seq(|docs|, k requires 0 <= k < |docs| => CreateAndLogIssue(rule, docs[k], options))
  }

  lemma IssuesOfSnoc(rule: string, docs: seq<Document>, doc: Document, options: Options)
    ensures IssuesOf(rule, docs + [doc], options) == IssuesOf(rule, docs, options) + [CreateAndLogIssue(rule, doc, options)]
  {
    var a, b := IssuesOf(rule, docs + [doc], options), IssuesOf(rule, docs, options) + [CreateAndLogIssue(rule, doc, options)];
    assert |a| == |b|;
    forall k | 0 <= k < |a|
      ensures a[k] == b[k]
    {
      assert (docs + [doc])[k] == if k < |docs| then docs[k] else doc;
    }
  }

  /** With `objectRefsOnly`, no issue carries the document. */
  lemma RefsOnlyIssues(rule: string, docs: seq<Document>, options: Options)
    requires options.objectRefsOnly
    ensures forall issue :: issue in IssuesOf(rule, docs, options) ==> issue.document.None?
  {
  }

  // ---------------------------------------------------------------- revoked objects

  predicate IsRevokedBy(relationship: Document) {
    relationship.stix.relationshipType == Text("revoked-by")
  }

  predicate IsRevoked(doc: Document) {
    doc.stix.revoked
  }

  /** `sourceObjectMap` after the first `n` relationships: each `revoked-by` one is stored under its `source_ref`. */
  function RevokedByIndex(relationships: seq<Document>, n: nat): map<Prop, Document>
    requires n <= |relationships|
    decreases n
  {
    if n == 0 then map[]
    else
      var index := RevokedByIndex(relationships, n - 1);
      var relationship := relationships[n - 1];
      if IsRevokedBy(relationship) then index[relationship.stix.sourceRef := relationship] else index
  }

  /** A revoked-by relationship among the first `n` whose source is `source`. */
  predicate RevokesFrom(relationships: seq<Document>, j: int, source: Prop) {
    0 <= j < |relationships| && IsRevokedBy(relationships[j]) && relationships[j].stix.sourceRef == source
  }

  /** A source is indexed exactly when some revoked-by relationship comes from it. */
  lemma {:induction false} RevokedByIndexKeys(relationships: seq<Document>, n: nat, source: Prop)
    requires n <= |relationships|
    ensures source in RevokedByIndex(relationships, n) <==> exists j :: 0 <= j < n && RevokesFrom(relationships, j, source)
    decreases n
  {
    if n > 0 {
      RevokedByIndexKeys(relationships, n - 1, source);
      if RevokesFrom(relationships, n - 1, source) {
        assert source in RevokedByIndex(relationships, n);
      }
    }
  }

  /** Last one wins: the indexed relationship is the last revoked-by relationship from that source. */
  lemma {:induction false} RevokedByIndexLastWins(relationships: seq<Document>, n: nat, source: Prop)
    requires n <= |relationships|
    requires source in RevokedByIndex(relationships, n)
    ensures exists j :: (0 <= j < n && RevokesFrom(relationships, j, source)
      && RevokedByIndex(relationships, n)[source] == relationships[j]
      && forall j' :: j < j' < n ==> !RevokesFrom(relationships, j', source))
    decreases n
  {
    var index := RevokedByIndex(relationships, n);
    if RevokesFrom(relationships, n - 1, source) {
      assert index[source] == relationships[n - 1];
    } else {
      RevokedByIndexLastWins(relationships, n - 1, source);
      var j :| 0 <= j < n - 1 && RevokesFrom(relationships, j, source)
        && RevokedByIndex(relationships, n - 1)[source] == relationships[j]
        && forall j' :: j < j' < n - 1 ==> !RevokesFrom(relationships, j', source);
      assert index[source] == relationships[j];
    }
  }

  /** The issue about one revoked object: missing relationship, else revoked one, else deprecated one. */
  function RevokedIssueFor(obj: Document, index: map<Prop, Document>, options: Options): seq<Issue> {
    if obj.stix.id !in index then [CreateAndLogIssue(MissingRevokedBy, obj, options)]
    else if index[obj.stix.id].stix.revoked then [CreateAndLogIssue(RevokedRevokedBy, obj, options)]
    else if index[obj.stix.id].stix.deprecated then [CreateAndLogIssue(DeprecatedRevokedBy, obj, options)]
    else []
  }

  function RevokedCheck(index: map<Prop, Document>, options: Options): Document -> seq<Issue> {
    obj => RevokedIssueFor(obj, index, options)
  }

  /** What `revokedObjectsHaveRevokedByRelationships` reports for a snapshot. */
  function RevokedObjectIssues(attackObjects: seq<Document>, relationships: seq<Document>, options: Options): seq<Issue> {
    var revoked := Filter(IsRevoked, attackObjects);
    FlatMap(RevokedCheck(RevokedByIndex(relationships, |relationships|), options), revoked, |revoked|)
  }

  /** `revokedObjectsHaveRevokedByRelationships`: index the revoked-by relationships, then check each revoked object. */
  method RevokedObjectsHaveRevokedByRelationships(attackObjects: seq<Document>, relationships: seq<Document>, options: Options)
    returns (issues: seq<Issue>)
    ensures issues == RevokedObjectIssues(attackObjects, relationships, options)
  {
    var revokedAttackObjects := Filter(IsRevoked, attackObjects);
    var sourceObjectMap: map<Prop, Document> := map[];
    for i := 0 to |relationships|
      invariant sourceObjectMap == RevokedByIndex(relationships, i)
    {
      var relationship := relationships[i];
      if relationship.stix.relationshipType == Text("revoked-by") {
        sourceObjectMap := sourceObjectMap[relationship.stix.sourceRef := relationship];
      }
    }

    issues := [];
    for i := 0 to |revokedAttackObjects|
      invariant issues == FlatMap(RevokedCheck(sourceObjectMap, options), revokedAttackObjects, i)
    {
      var attackObject := revokedAttackObjects[i];
      if attackObject.stix.id !in sourceObjectMap {
        issues := issues + [CreateAndLogIssue(MissingRevokedBy, attackObject, options)];
      } else {
        var revokingRelationship := sourceObjectMap[attackObject.stix.id];
        if revokingRelationship.stix.revoked {
          issues := issues + [CreateAndLogIssue(RevokedRevokedBy, attackObject, options)];
        } else if revokingRelationship.stix.deprecated {
          issues := issues + [CreateAndLogIssue(DeprecatedRevokedBy, attackObject, options)];
        }
      }
    }
  }

  /**
   * The issue about one revoked object in terms of the relationships themselves: none
   * when no revoked-by relationship comes from it, else decided by the last such one.
   */
  lemma RevokedIssueForRelationships(obj: Document, relationships: seq<Document>, options: Options)
    ensures var r := RevokedIssueFor(obj, RevokedByIndex(relationships, |relationships|), options);
      && |r| <= 1
      && ((forall j :: 0 <= j < |relationships| ==> !RevokesFrom(relationships, j, obj.stix.id))
          ==> r == [CreateAndLogIssue(MissingRevokedBy, obj, options)])
      && (forall j :: (RevokesFrom(relationships, j, obj.stix.id)
            && (forall j' :: j < j' < |relationships| ==> !RevokesFrom(relationships, j', obj.stix.id))
          ==> r == if relationships[j].stix.revoked then [CreateAndLogIssue(RevokedRevokedBy, obj, options)]
                   else if relationships[j].stix.deprecated then [CreateAndLogIssue(DeprecatedRevokedBy, obj, options)]
                   else []))
  {
    var n := |relationships|;
    var source := obj.stix.id;
    RevokedByIndexKeys(relationships, n, source);
    if source in RevokedByIndex(relationships, n) {
      RevokedByIndexLastWins(relationships, n, source);
      var last :| 0 <= last < n && RevokesFrom(relationships, last, source)
        && RevokedByIndex(relationships, n)[source] == relationships[last]
        && forall j' :: last < j' < n ==> !RevokesFrom(relationships, j', source);
      forall j | RevokesFrom(relationships, j, source) && (forall j' :: j < j' < n ==> !RevokesFrom(relationships, j', source))
        ensures j == last
      {
      }
    }
  }

  /** Objects that are not revoked get no issue from this rule, and each revoked one at most one. */
  lemma RevokedObjectIssuesOnlyRevoked(attackObjects: seq<Document>, relationships: seq<Document>, options: Options)
    ensures var revoked := Filter(IsRevoked, attackObjects);
      && |RevokedObjectIssues(attackObjects, relationships, options)| <= |revoked|
      && forall issue :: (issue in RevokedObjectIssues(attackObjects, relationships, options)
         ==> exists obj :: (obj in attackObjects && obj.stix.revoked
             && issue.objectRef == ObjectRef(obj.stix.id, obj.stix.modified)))
  {
    var revoked := Filter(IsRevoked, attackObjects);
    var check := RevokedCheck(RevokedByIndex(relationships, |relationships|), options);
    FlatMapAtMostOne(check, revoked, |revoked|);
    forall issue | issue in RevokedObjectIssues(attackObjects, relationships, options)
      ensures exists obj :: (obj in attackObjects && obj.stix.revoked
             && issue.objectRef == ObjectRef(obj.stix.id, obj.stix.modified))
    {
      FlatMapMember(check, revoked, |revoked|, issue);
      var j :| 0 <= j < |revoked| && issue in check(revoked[j]);
      assert revoked[j] in revoked;
    }
  }

  // ---------------------------------------------------------------- deprecated and revoked relationships

  predicate IsDeprecated(doc: Document) {
    doc.stix.deprecated
  }

  /** `noDeprecatedRelationships`: one issue per deprecated relationship, in input order. */
  method NoDeprecatedRelationships(relationships: seq<Document>, options: Options) returns (issues: seq<Issue>)
    ensures issues == IssuesOf(NoDeprecatedRelationshipsRule, Filter(IsDeprecated, relationships), options)
  {
    issues := [];
    for i := 0 to |relationships|
      invariant issues == IssuesOf(NoDeprecatedRelationshipsRule, Filter(IsDeprecated, relationships[..i]), options)
    {
      var relationship := relationships[i];
      FilterSnoc(IsDeprecated, relationships, i);
      if relationship.stix.deprecated {
        IssuesOfSnoc(NoDeprecatedRelationshipsRule, Filter(IsDeprecated, relationships[..i]), relationship, options);
        issues := issues + [CreateAndLogIssue(NoDeprecatedRelationshipsRule, relationship, options)];
      }
    }
    assert relationships[..|relationships|] == relationships;
  }

  /** `noRevokedRelationships`: one issue per revoked relationship, in input order. */
  method NoRevokedRelationships(relationships: seq<Document>, options: Options) returns (issues: seq<Issue>)
    ensures issues == IssuesOf(NoRevokedRelationshipsRule, Filter(IsRevoked, relationships), options)
  {
    issues := [];
    for i := 0 to |relationships|
      invariant issues == IssuesOf(NoRevokedRelationshipsRule, Filter(IsRevoked, relationships[..i]), options)
    {
      var relationship := relationships[i];
      FilterSnoc(IsRevoked, relationships, i);
      if relationship.stix.revoked {
        IssuesOfSnoc(NoRevokedRelationshipsRule, Filter(IsRevoked, relationships[..i]), relationship, options);
        issues := issues + [CreateAndLogIssue(NoRevokedRelationshipsRule, relationship, options)];
      }
    }
    assert relationships[..|relationships|] == relationships;
  }

  /** Every flagged relationship gets its issue, and only flagged ones do, in the order of the input. */
  lemma FlaggedRelationshipIssues(rule: string, flagged: Document -> bool, relationships: seq<Document>, options: Options)
    ensures var issues := IssuesOf(rule, Filter(flagged, relationships), options);
      && IsSubsequence(Filter(flagged, relationships), relationships)
      && (forall r :: r in relationships && flagged(r) ==> CreateAndLogIssue(rule, r, options) in issues)
      && (forall issue :: issue in issues ==> exists r :: r in relationships && flagged(r) && issue == CreateAndLogIssue(rule, r, options))
  {
    var kept := Filter(flagged, relationships);
    var issues := IssuesOf(rule, kept, options);
    FilterIsSubsequence(flagged, relationships);
    forall r | r in relationships && flagged(r)
      ensures CreateAndLogIssue(rule, r, options) in issues
    {
      FilterKeeps(flagged, relationships, r);
      var k :| 0 <= k < |kept| && kept[k] == r;
      assert issues[k] == CreateAndLogIssue(rule, r, options);
    }
    forall issue | issue in issues
      ensures exists r :: r in relationships && flagged(r) && issue == CreateAndLogIssue(rule, r, options)
    {
      var k :| 0 <= k < |issues| && issues[k] == issue;
      assert kept[k] in kept;
    }
  }

  // ---------------------------------------------------------------- modified not before created

  /** Whether `getTime` throws on the property: it does when the value is not a `Date`. */
  predicate GetTimeThrows(d: DateValue) {
    d.NotADate?
  }

  /** `created.getTime() > modified.getTime()`: never true when either time is `NaN`. */
  predicate CreatedAfterModified(created: DateValue, modified: DateValue) {
    created.Date? && modified.Date? && created.time > modified.time
  }

  /** The issues about one object: marking-definitions are skipped, and a throwing `getTime` becomes an error issue. */
  function TimestampIssuesFor(obj: Document, options: Options): seq<Issue> {
    if obj.stix.stixType == Text("marking-definition") then []
    else if GetTimeThrows(obj.stix.created) || GetTimeThrows(obj.stix.modified) then [CreateAndLogIssue(ErrorWhileTesting, obj, options)]
    else if CreatedAfterModified(obj.stix.created, obj.stix.modified) then [CreateAndLogIssue(ModifiedNotBeforeCreatedRule, obj, options)]
    else []
  }

  function TimestampCheck(options: Options): Document -> seq<Issue> {
    obj => TimestampIssuesFor(obj, options)
  }

  /** `modifiedNotBeforeCreated`: compare the two times of every object that is not a marking-definition. */
  method ModifiedNotBeforeCreated(attackObjects: seq<Document>, options: Options) returns (issues: seq<Issue>)
    ensures issues == FlatMap(TimestampCheck(options), attackObjects, |attackObjects|)
  {
    issues := [];
    for i := 0 to |attackObjects|
      invariant issues == FlatMap(TimestampCheck(options), attackObjects, i)
    {
      var attackObject := attackObjects[i];
      if attackObject.stix.stixType != Text("marking-definition") {
        var created, modified := attackObject.stix.created, attackObject.stix.modified;
        if created.NotADate? || modified.NotADate? {
          issues := issues + [CreateAndLogIssue(ErrorWhileTesting, attackObject, options)];
        } else if created.Date? && modified.Date? && created.time > modified.time {
          issues := issues + [CreateAndLogIssue(ModifiedNotBeforeCreatedRule, attackObject, options)];
        }
      }
    }
  }

  /**
   * One object's verdict: nothing for a marking-definition; otherwise one error issue when
   * a time cannot be read, else one issue exactly when `created` is later than `modified`.
   * An invalid `Date` has time `NaN`, the comparison is false, and the object passes unreported.
   */
  lemma TimestampVerdict(obj: Document, options: Options)
    ensures var r := TimestampIssuesFor(obj, options);
      && |r| <= 1
      && (obj.stix.stixType == Text("marking-definition") ==> r == [])
      && (obj.stix.stixType != Text("marking-definition") && (obj.stix.created.NotADate? || obj.stix.modified.NotADate?)
          ==> r == [CreateAndLogIssue(ErrorWhileTesting, obj, options)])
      && (obj.stix.stixType != Text("marking-definition") && obj.stix.created.Date? && obj.stix.modified.Date?
          ==> ((r != [] <==> obj.stix.created.time > obj.stix.modified.time)
               && (r != [] ==> r[0].rule == ModifiedNotBeforeCreatedRule)))
      && ((!obj.stix.created.NotADate? && !obj.stix.modified.NotADate?
           && (obj.stix.created.InvalidDate? || obj.stix.modified.InvalidDate?)) ==> r == [])
  {
  }

  /** The scan goes on after an error: each object's issues sit in the report right after those of the objects before it. */
  lemma TimestampIssuesInOrder(attackObjects: seq<Document>, options: Options, m: nat)
    requires m < |attackObjects|
    ensures FlatMap(TimestampCheck(options), attackObjects, m) + TimestampIssuesFor(attackObjects[m], options)
      <= FlatMap(TimestampCheck(options), attackObjects, |attackObjects|)
  {
    FlatMapPrefix(TimestampCheck(options), attackObjects, m, |attackObjects|);
  }
}
