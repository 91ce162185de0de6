/**
 * The structural validator for collection bundles: it turns a bundle's object list
 * into an ordered list of issues (no collection, more than one collection, a collection
 * without an id, a repeated `id/modified` key, an ATT&CK spec version that is not a valid
 * semantic version or is newer than the system supports).
 */
module BundleValidator {
  import opened Common
  import SemVer

  /** The properties of a bundle object that the validator reads. */
  datatype BundleObject = BundleObject(objectType: Prop, id: Prop, modified: Prop, attackSpecVersion: Prop)

  datatype Rule =
    | BundleMayNotHaveZeroCollections
    | BundleMayNotHaveMoreThanOneCollection
    | CollectionMustHaveAnId
    | ObjectRefMustBeUnique
    | AttackSpecVersionMustBeValid

  datatype ObjectRef = ObjectRef(id: Prop, modified: Prop)

  datatype Issue = Issue(rule: Rule, objectRef: Option<ObjectRef>)

  const CollectionType: string := "x-mitre-collection"

  /** Spec version used for objects that do not carry `x_mitre_attack_spec_version`. */
  const DefaultAttackSpecVersion: string := "2.0.0"

  /** `createIssue(rule, stixObject)`: the issue references the object's `id` and `modified`. */
  function CreateIssue(rule: Rule, obj: BundleObject): (issue: Issue)
    ensures issue.rule == rule && issue.objectRef == Some(ObjectRef(obj.id, obj.modified))
  {
    Issue(rule, Some(ObjectRef(obj.id, obj.modified)))
  }

  /** `createIssue(rule)`: a bundle-level issue without an object reference. */
  function BundleIssue(rule: Rule): Issue {
    Issue(rule, None)
  }

  /** `makeKey(id, modified)`: the two properties converted to strings and joined by `/`. */
  function MakeKey(id: Prop, modified: Prop): string {
    JsString(id) + "/" + JsString(modified)
  }

  function Key(obj: BundleObject): string {
    MakeKey(obj.id, obj.modified)
  }

  /** The key of the object an issue references. */
  function RefKey(ref: ObjectRef): string {
    MakeKey(ref.id, ref.modified)
  }

  predicate IsCollection(obj: BundleObject) {
    obj.objectType == Text(CollectionType)
  }

  /** `objects.filter(object => object.type === 'x-mitre-collection')`. */
  function Collections(objects: seq<BundleObject>): (r: seq<BundleObject>)
    ensures |r| <= |objects|
    ensures forall o :: o in r ==> o in objects && IsCollection(o)
  {
    Filter(IsCollection, objects)
  }

  /** The spec version the validator checks: the object's own, or the default. */
  function EffectiveSpecVersion(obj: BundleObject): string {
    Coalesce(obj.attackSpecVersion, DefaultAttackSpecVersion)
  }

  /** The version is not a semantic version, or it is newer than `maxSpecVersion`. */
  predicate SpecVersionViolation(obj: BundleObject, maxSpecVersion: SemVer.Version) {
    var v := SemVer.Parse(EffectiveSpecVersion(obj));
    v.None? || SemVer.GreaterThan(v.value, maxSpecVersion)
  }

  /** The spec-version verdict as a predicate on objects; the specification below is written over any such verdict. */
  function Rejects(maxSpecVersion: SemVer.Version): BundleObject -> bool {
    obj => SpecVersionViolation(obj, maxSpecVersion)
  }

  // ---------------------------------------------------------------- the specification

  /** How many of the first `n` objects have key `k`. */
  function Occurrences(objects: seq<BundleObject>, n: nat, k: string): nat
    requires n <= |objects|
    decreases n
  {
    if n == 0 then 0 else Occurrences(objects, n - 1, k) + (if Key(objects[n - 1]) == k then 1 else 0)
  }

  /** Some earlier object of the bundle has the same key (see `RepeatMeansEarlierTwin`). */
  predicate IsRepeat(objects: seq<BundleObject>, i: int)
    requires 0 <= i < |objects|
  {
    Occurrences(objects, i, Key(objects[i])) > 0
  }

  /** The issues about the whole bundle, which come first. */
  function BundleLevelIssues(objects: seq<BundleObject>): seq<Issue> {
    CollectionCountIssues(objects) + CollectionIdIssues(objects)
  }

  /** Zero collections, else more than one: the two are exclusive. */
  function CollectionCountIssues(objects: seq<BundleObject>): seq<Issue> {
    var collections := Collections(objects);
    if |collections| == 0 then [BundleIssue(BundleMayNotHaveZeroCollections)]
    else if |collections| > 1 then [BundleIssue(BundleMayNotHaveMoreThanOneCollection)]
    else []
  }

  /** The first collection in bundle order must have a truthy id. */
  function CollectionIdIssues(objects: seq<BundleObject>): seq<Issue> {
    var collections := Collections(objects);
    if |collections| > 0 && !Truthy(collections[0].id) then [BundleIssue(CollectionMustHaveAnId)] else []
  }

  /** The issues about the object at position `i`: first the repeat, then the spec version. */
  function IssuesFor(objects: seq<BundleObject>, i: int, rejects: BundleObject -> bool): seq<Issue>
    requires 0 <= i < |objects|
  {
    RepeatIssues(objects, i) + SpecVersionIssues(objects[i], rejects)
  }

  function RepeatIssues(objects: seq<BundleObject>, i: int): seq<Issue>
    requires 0 <= i < |objects|
  {
    if IsRepeat(objects, i) then [CreateIssue(ObjectRefMustBeUnique, objects[i])] else []
  }

  function SpecVersionIssues(obj: BundleObject, rejects: BundleObject -> bool): seq<Issue> {
    if rejects(obj) then [CreateIssue(AttackSpecVersionMustBeValid, obj)] else []
  }

  /** The distinct keys among the first `n` objects. */
  function KeySet(objects: seq<BundleObject>, n: nat): set<string>
    requires n <= |objects|
    decreases n
  {
    if n == 0 then {} else KeySet(objects, n - 1) + {Key(objects[n - 1])}
  }

  /** The issues about each object, object by object. */
  function PerObjectIssues(objects: seq<BundleObject>, rejects: BundleObject -> bool): (r: seq<seq<Issue>>)
    ensures |r| == |objects|
    ensures forall i :: 0 <= i < |objects| ==> r[i] == IssuesFor(objects, i, rejects)
  {
    seq(|objects|, i requires 0 <= i < |objects| => IssuesFor(objects, i, rejects))
  }

  /** The issues about the first `n` objects, in bundle order. */
  function ObjectIssues(objects: seq<BundleObject>, n: nat, rejects: BundleObject -> bool): seq<Issue>
    requires n <= |objects|
  {
    Flatten(PerObjectIssues(objects, rejects), n)
  }

  /** All issues the validator reports for a bundle. */
  function Validation(objects: seq<BundleObject>, rejects: BundleObject -> bool): seq<Issue> {
    BundleLevelIssues(objects) + ObjectIssues(objects, |objects|, rejects)
  }

  // ---------------------------------------------------------------- the validator

  /**
   * `validateCollectionBundle`: the bundle-level checks, then one pass over the objects
   * that remembers every key it has seen in a map.
   */
  method ValidateCollectionBundle(objects: seq<BundleObject>, maxSpecVersion: SemVer.Version) returns (issues: seq<Issue>)
    ensures issues == Validation(objects, Rejects(maxSpecVersion))
  {
    issues := [];
    var collections := Collections(objects);
    if |collections| == 0 {
      issues := issues + [BundleIssue(BundleMayNotHaveZeroCollections)];
    } else if |collections| > 1 {
      issues := issues + [BundleIssue(BundleMayNotHaveMoreThanOneCollection)];
    }
    if |collections| > 0 && !Truthy(collections[0].id) {
      issues := issues + [BundleIssue(CollectionMustHaveAnId)];
    }
    assert issues == BundleLevelIssues(objects);

    var objectMap: map<string, BundleObject> := map[];
    for i := 0 to |objects|
      invariant objectMap.Keys == KeySet(objects, i)
      invariant issues == BundleLevelIssues(objects) + ObjectIssues(objects, i, Rejects(maxSpecVersion))
    {
      var obj := objects[i];
      var key := MakeKey(obj.id, obj.modified);
      var duplicate: seq<Issue> := [];
      KeySeen(objects, i);
      if key in objectMap {
        duplicate := [CreateIssue(ObjectRefMustBeUnique, obj)];
      } else {
        objectMap := objectMap[key := obj];
      }
      assert duplicate == RepeatIssues(objects, i);
      var invalid := CheckAttackSpecVersion(obj, maxSpecVersion);
      AppendAssociative(BundleLevelIssues(objects), ObjectIssues(objects, i, Rejects(maxSpecVersion)), duplicate + invalid);
      issues := issues + (duplicate + invalid);
    }
  }

  /** The loop body's spec-version check: invalid semantic version, else newer than the maximum. */
  method CheckAttackSpecVersion(obj: BundleObject, maxSpecVersion: SemVer.Version) returns (invalid: seq<Issue>)
    ensures invalid == SpecVersionIssues(obj, Rejects(maxSpecVersion))
  {
    var specVersion := SemVer.Parse(Coalesce(obj.attackSpecVersion, DefaultAttackSpecVersion));
    invalid := [];
    if specVersion.None? {
      invalid := [CreateIssue(AttackSpecVersionMustBeValid, obj)];
    } else if SemVer.GreaterThan(specVersion.value, maxSpecVersion) {
      invalid := [CreateIssue(AttackSpecVersionMustBeValid, obj)];
    }
  }

  lemma AppendAssociative<T>(a: seq<T>, b: seq<T>, c: seq<T>)
    ensures (a + b) + c == a + (b + c)
  {
  }

  /** A key is among the first `n` keys exactly when it occurs there. */
  lemma {:induction false} KeySetOccurrences(objects: seq<BundleObject>, n: nat, k: string)
    requires n <= |objects|
    ensures k in KeySet(objects, n) <==> Occurrences(objects, n, k) > 0
    decreases n
  {
    if n > 0 {
      KeySetOccurrences(objects, n - 1, k);
    }
  }

  /** A repeat leaves the set of keys as it is; any other object adds one key. */
  lemma KeySetStep(objects: seq<BundleObject>, i: int)
    requires 0 <= i < |objects|
    ensures |KeySet(objects, i + 1)| == |KeySet(objects, i)| + if IsRepeat(objects, i) then 0 else 1
  {
    KeySeen(objects, i);
    var seen, key := KeySet(objects, i), Key(objects[i]);
    assert KeySet(objects, i + 1) == seen + {key};
    if key in seen {
      assert seen + {key} == seen;
    }
  }

  /** The key of object `i` has been seen before exactly when `i` is a repeat. */
  lemma KeySeen(objects: seq<BundleObject>, i: int)
    requires 0 <= i < |objects|
    ensures Key(objects[i]) in KeySet(objects, i) <==> IsRepeat(objects, i)
  {
    KeySetOccurrences(objects, i, Key(objects[i]));
  }

  // ---------------------------------------------------------------- counting

  function HasRule(rule: Rule): Issue -> bool {
    (issue: Issue) => issue.rule == rule
  }

  /** The number of issues about `rule`. */
  function CountRule(issues: seq<Issue>, rule: Rule): nat {
    Count(HasRule(rule), issues)
  }

  lemma CountRuleAppend(a: seq<Issue>, b: seq<Issue>, rule: Rule)
    ensures CountRule(a + b, rule) == CountRule(a, rule) + CountRule(b, rule)
  {
    CountAppend(HasRule(rule), a, b);
  }

  lemma CountRuleSingleton(x: Issue, rule: Rule)
    ensures CountRule([x], rule) == if x.rule == rule then 1 else 0
  {
    CountSingleton(HasRule(rule), x);
  }

  predicate IsRepeatOf(issue: Issue, k: string) {
    issue.rule == ObjectRefMustBeUnique && issue.objectRef.Some? && RefKey(issue.objectRef.value) == k
  }

  function RepeatOf(k: string): Issue -> bool {
    (issue: Issue) => IsRepeatOf(issue, k)
  }

  /** The number of repeat issues that reference an object with key `k`. */
  function CountRepeatsOf(issues: seq<Issue>, k: string): nat {
    Count(RepeatOf(k), issues)
  }

  /** The number of objects whose spec version the validator rejects. */
  function CountViolations(objects: seq<BundleObject>, rejects: BundleObject -> bool): nat
    decreases |objects|
  {
    if |objects| == 0 then 0
    else (if rejects(objects[0]) then 1 else 0) + CountViolations(objects[1..], rejects)
  }

  lemma {:induction false} OccurrencesPositive(objects: seq<BundleObject>, n: nat, k: string)
    requires n <= |objects|
    ensures Occurrences(objects, n, k) > 0 <==> exists j :: 0 <= j < n && Key(objects[j]) == k
    decreases n
  {
    if n > 0 {
      OccurrencesPositive(objects, n - 1, k);
    }
  }

  /** One more object adds its repeat issue and its spec-version issue to the rule counts. */
  lemma ObjectIssuesCountStep(objects: seq<BundleObject>, i: nat, rejects: BundleObject -> bool, rule: Rule)
    requires i < |objects|
    ensures CountRule(ObjectIssues(objects, i + 1, rejects), rule)
      == CountRule(ObjectIssues(objects, i, rejects), rule)
       + (if rule == ObjectRefMustBeUnique && IsRepeat(objects, i) then 1 else 0)
       + (if rule == AttackSpecVersionMustBeValid && rejects(objects[i]) then 1 else 0)
  {
    var parts := PerObjectIssues(objects, rejects);
    CountFlattenStep(HasRule(rule), parts, i);
    IssuesForCount(objects, i, rejects, rule);
  }

  // ---------------------------------------------------------------- properties

  /** Rule counts of the issues about one object: a repeat issue iff it repeats, a spec issue iff it violates. */
  lemma IssuesForCount(objects: seq<BundleObject>, i: int, rejects: BundleObject -> bool, rule: Rule)
    requires 0 <= i < |objects|
    ensures CountRule(IssuesFor(objects, i, rejects), rule)
      == (if rule == ObjectRefMustBeUnique && IsRepeat(objects, i) then 1 else 0)
       + (if rule == AttackSpecVersionMustBeValid && rejects(objects[i]) then 1 else 0)
  {
    var r, v := RepeatIssues(objects, i), SpecVersionIssues(objects[i], rejects);
    CountRuleAppend(r, v, rule);
    if r != [] {
      CountRuleSingleton(r[0], rule);
    }
    if v != [] {
      CountRuleSingleton(v[0], rule);
    }
  }

  /** Each object gets at most a repeat issue followed by a spec-version issue, all referencing it. */
  lemma IssuesForShape(objects: seq<BundleObject>, i: int, rejects: BundleObject -> bool)
    requires 0 <= i < |objects|
    ensures var r := IssuesFor(objects, i, rejects);
      && |r| <= 2
      && (forall k :: 0 <= k < |r| ==> r[k].objectRef == Some(ObjectRef(objects[i].id, objects[i].modified)))
      && (forall k :: 0 <= k < |r| ==> r[k].rule == ObjectRefMustBeUnique || r[k].rule == AttackSpecVersionMustBeValid)
      && (|r| == 2 ==> r[0].rule == ObjectRefMustBeUnique && r[1].rule == AttackSpecVersionMustBeValid)
  {
  }

  /** Per-object issues reference an object and never concern a bundle-level rule. */
  lemma ObjectIssuesShape(objects: seq<BundleObject>, n: nat, rejects: BundleObject -> bool)
    requires n <= |objects|
    ensures forall issue :: issue in ObjectIssues(objects, n, rejects) ==> IsObjectIssue(issue)
  {
    var parts := PerObjectIssues(objects, rejects);
    forall i, issue | 0 <= i < n && issue in parts[i]
      ensures IsObjectIssue(issue)
    {
      IssuesForShape(objects, i, rejects);
    }
    FlattenAll(IsObjectIssue, parts, n);
  }

  predicate IsObjectIssue(issue: Issue) {
    issue.objectRef.Some? && (issue.rule == ObjectRefMustBeUnique || issue.rule == AttackSpecVersionMustBeValid)
  }

  lemma {:induction false} ObjectIssuesNoBundleRule(objects: seq<BundleObject>, n: nat, rejects: BundleObject -> bool, rule: Rule)
    requires n <= |objects|
    requires rule != ObjectRefMustBeUnique && rule != AttackSpecVersionMustBeValid
    ensures CountRule(ObjectIssues(objects, n, rejects), rule) == 0
    decreases n
  {
    if n > 0 {
      var i := n - 1;
      ObjectIssuesNoBundleRule(objects, i, rejects, rule);
      ObjectIssuesCountStep(objects, i, rejects, rule);
    }
  }

  lemma CollectionCountIssuesCount(objects: seq<BundleObject>, rule: Rule)
    ensures CountRule(CollectionCountIssues(objects), rule)
      == (if rule == BundleMayNotHaveZeroCollections && |Collections(objects)| == 0 then 1 else 0)
       + (if rule == BundleMayNotHaveMoreThanOneCollection && |Collections(objects)| > 1 then 1 else 0)
  {
    var c := CollectionCountIssues(objects);
    if c != [] {
      CountRuleSingleton(c[0], rule);
    }
  }

  lemma CollectionIdIssuesCount(objects: seq<BundleObject>, rule: Rule)
    ensures CountRule(CollectionIdIssues(objects), rule)
      == if rule == CollectionMustHaveAnId && |Collections(objects)| > 0 && !Truthy(Collections(objects)[0].id) then 1 else 0
  {
    var d := CollectionIdIssues(objects);
    if d != [] {
      CountRuleSingleton(d[0], rule);
    }
  }

  /** Counts of a rule over the whole validation: bundle-level part plus per-object part. */
  lemma CountValidation(objects: seq<BundleObject>, rejects: BundleObject -> bool, rule: Rule)
    ensures CountRule(Validation(objects, rejects), rule)
      == CountRule(CollectionCountIssues(objects), rule) + CountRule(CollectionIdIssues(objects), rule)
       + CountRule(ObjectIssues(objects, |objects|, rejects), rule)
  {
    CountRuleAppend(BundleLevelIssues(objects), ObjectIssues(objects, |objects|, rejects), rule);
    CountRuleAppend(CollectionCountIssues(objects), CollectionIdIssues(objects), rule);
  }

  /** A bundle-level rule is counted from the bundle-level checks alone. */
  lemma CountBundleRule(objects: seq<BundleObject>, rejects: BundleObject -> bool, rule: Rule)
    requires rule != ObjectRefMustBeUnique && rule != AttackSpecVersionMustBeValid
    ensures CountRule(Validation(objects, rejects), rule)
      == (if rule == BundleMayNotHaveZeroCollections && |Collections(objects)| == 0 then 1 else 0)
       + (if rule == BundleMayNotHaveMoreThanOneCollection && |Collections(objects)| > 1 then 1 else 0)
       + (if rule == CollectionMustHaveAnId && |Collections(objects)| > 0 && !Truthy(Collections(objects)[0].id) then 1 else 0)
  {
    CountValidation(objects, rejects, rule);
    CollectionCountIssuesCount(objects, rule);
    CollectionIdIssuesCount(objects, rule);
    ObjectIssuesNoBundleRule(objects, |objects|, rejects, rule);
  }

  /** No collection: exactly one zero-collections issue, first and without object reference, and no more-than-one issue. */
  lemma ZeroCollections(objects: seq<BundleObject>, rejects: BundleObject -> bool)
    requires |Collections(objects)| == 0
    ensures CountRule(Validation(objects, rejects), BundleMayNotHaveZeroCollections) == 1
    ensures CountRule(Validation(objects, rejects), BundleMayNotHaveMoreThanOneCollection) == 0
    ensures Validation(objects, rejects)[0] == Issue(BundleMayNotHaveZeroCollections, None)
  {
    CountBundleRule(objects, rejects, BundleMayNotHaveZeroCollections);
    CountBundleRule(objects, rejects, BundleMayNotHaveMoreThanOneCollection);
  }

  /** More than one collection: exactly one more-than-one issue, and no zero-collections issue. */
  lemma SeveralCollections(objects: seq<BundleObject>, rejects: BundleObject -> bool)
    requires |Collections(objects)| > 1
    ensures CountRule(Validation(objects, rejects), BundleMayNotHaveMoreThanOneCollection) == 1
    ensures CountRule(Validation(objects, rejects), BundleMayNotHaveZeroCollections) == 0
  {
    CountBundleRule(objects, rejects, BundleMayNotHaveZeroCollections);
    CountBundleRule(objects, rejects, BundleMayNotHaveMoreThanOneCollection);
  }

  /** Which collection-count issue appears is decided by the number of collections alone. */
  lemma CollectionCountIssued(objects: seq<BundleObject>, rejects: BundleObject -> bool)
    ensures CountRule(Validation(objects, rejects), BundleMayNotHaveZeroCollections)
      == if |Collections(objects)| == 0 then 1 else 0
    ensures CountRule(Validation(objects, rejects), BundleMayNotHaveMoreThanOneCollection)
      == if |Collections(objects)| > 1 then 1 else 0
  {
    CountBundleRule(objects, rejects, BundleMayNotHaveZeroCollections);
    CountBundleRule(objects, rejects, BundleMayNotHaveMoreThanOneCollection);
  }

  /** The missing-id issue appears, once, exactly when the first collection's id is falsy. */
  lemma MissingCollectionId(objects: seq<BundleObject>, rejects: BundleObject -> bool)
    ensures CountRule(Validation(objects, rejects), CollectionMustHaveAnId)
      == if |Collections(objects)| > 0 && !Truthy(Collections(objects)[0].id) then 1 else 0
  {
    CountBundleRule(objects, rejects, CollectionMustHaveAnId);
  }

  lemma IssuesForRepeats(objects: seq<BundleObject>, i: int, rejects: BundleObject -> bool, k: string)
    requires 0 <= i < |objects|
    ensures CountRepeatsOf(IssuesFor(objects, i, rejects), k)
      == if IsRepeat(objects, i) && Key(objects[i]) == k then 1 else 0
  {
    var r, v := RepeatIssues(objects, i), SpecVersionIssues(objects[i], rejects);
    CountAppend(RepeatOf(k), r, v);
    if r != [] {
      CountSingleton(RepeatOf(k), r[0]);
    }
    if v != [] {
      CountSingleton(RepeatOf(k), v[0]);
    }
  }

  /** A key that occurs `n > 0` times among the objects yields exactly `n - 1` repeat issues. */
  lemma RepeatsPerKey(objects: seq<BundleObject>, n: nat, rejects: BundleObject -> bool, k: string)
    requires n <= |objects|
    ensures CountRepeatsOf(ObjectIssues(objects, n, rejects), k)
      == if Occurrences(objects, n, k) > 0 then Occurrences(objects, n, k) - 1 else 0
  {
    var parts := PerObjectIssues(objects, rejects);
    forall i | 0 <= i < n
      ensures CountRepeatsOf(parts[i], k) == if IsRepeat(objects, i) && Key(objects[i]) == k then 1 else 0
    {
      IssuesForRepeats(objects, i, rejects, k);
    }
    RepeatsPerKeyOver(objects, parts, n, k);
  }

  /** `RepeatsPerKey` over any parts that count one repeat of `k` for each repeat with key `k`. */
  lemma {:induction false} RepeatsPerKeyOver(objects: seq<BundleObject>, parts: seq<seq<Issue>>, n: nat, k: string)
    requires n <= |objects| && n <= |parts|
    requires forall i :: 0 <= i < n ==> CountRepeatsOf(parts[i], k) == if IsRepeat(objects, i) && Key(objects[i]) == k then 1 else 0
    ensures CountRepeatsOf(Flatten(parts, n), k)
      == if Occurrences(objects, n, k) > 0 then Occurrences(objects, n, k) - 1 else 0
    decreases n
  {
    if n > 0 {
      var i := n - 1;
      RepeatsPerKeyOver(objects, parts, i, k);
      CountFlattenStep(RepeatOf(k), parts, i);
      if Key(objects[i]) == k {
        assert Occurrences(objects, n, k) == Occurrences(objects, i, k) + 1;
        assert IsRepeat(objects, i) <==> Occurrences(objects, i, k) > 0;
      } else {
        assert Occurrences(objects, n, k) == Occurrences(objects, i, k);
      }
    }
  }

  /** An object is a repeat exactly when some earlier object has its key. */
  lemma RepeatMeansEarlierTwin(objects: seq<BundleObject>, i: int)
    requires 0 <= i < |objects|
    ensures IsRepeat(objects, i) <==> exists j :: 0 <= j < i && Key(objects[j]) == Key(objects[i])
  {
    OccurrencesPositive(objects, i, Key(objects[i]));
  }

  /** Only objects with an earlier twin get a repeat issue: the first object with a key never does. */
  lemma RepeatIssueHasEarlierTwin(objects: seq<BundleObject>, i: int, rejects: BundleObject -> bool)
    requires 0 <= i < |objects|
    ensures CountRule(IssuesFor(objects, i, rejects), ObjectRefMustBeUnique) == 1
      <==> exists j :: 0 <= j < i && Key(objects[j]) == Key(objects[i])
  {
    IssuesForCount(objects, i, rejects, ObjectRefMustBeUnique);
    RepeatMeansEarlierTwin(objects, i);
  }

  /** The repeat issues number the objects minus the distinct keys (the duplicate count of the report). */
  lemma RepeatTotal(objects: seq<BundleObject>, n: nat, rejects: BundleObject -> bool)
    requires n <= |objects|
    ensures |KeySet(objects, n)| <= n
    ensures CountRule(ObjectIssues(objects, n, rejects), ObjectRefMustBeUnique) == n - |KeySet(objects, n)|
  {
    var parts := PerObjectIssues(objects, rejects);
    forall i | 0 <= i < n
      ensures CountRule(parts[i], ObjectRefMustBeUnique) == if IsRepeat(objects, i) then 1 else 0
    {
      IssuesForCount(objects, i, rejects, ObjectRefMustBeUnique);
    }
    RepeatTotalOver(objects, parts, n);
  }

  /** `RepeatTotal` over any parts that count one repeat issue for each repeat. */
  lemma {:induction false} RepeatTotalOver(objects: seq<BundleObject>, parts: seq<seq<Issue>>, n: nat)
    requires n <= |objects| && n <= |parts|
    requires forall i :: 0 <= i < n ==> CountRule(parts[i], ObjectRefMustBeUnique) == if IsRepeat(objects, i) then 1 else 0
    ensures |KeySet(objects, n)| <= n
    ensures CountRule(Flatten(parts, n), ObjectRefMustBeUnique) == n - |KeySet(objects, n)|
    decreases n
  {
    if n == 0 {
      assert KeySet(objects, 0) == {};
    } else {
      var i := n - 1;
      RepeatTotalOver(objects, parts, i);
      CountFlattenStep(HasRule(ObjectRefMustBeUnique), parts, i);
      KeySetStep(objects, i);
    }
  }

  lemma {:induction false} CountViolationsSnoc(objects: seq<BundleObject>, rejects: BundleObject -> bool)
    requires |objects| > 0
    ensures CountViolations(objects, rejects)
      == CountViolations(objects[..|objects| - 1], rejects)
         + (if rejects(objects[|objects| - 1]) then 1 else 0)
    decreases |objects|
  {
    if |objects| == 1 {
      assert objects[..0] == [];
      assert objects[1..] == [];
    } else {
      CountViolationsSnoc(objects[1..], rejects);
      assert objects[1..][..|objects| - 2] == objects[..|objects| - 1][1..];
    }
  }

  lemma SpecVersionTotal(objects: seq<BundleObject>, n: nat, rejects: BundleObject -> bool)
    requires n <= |objects|
    ensures CountRule(ObjectIssues(objects, n, rejects), AttackSpecVersionMustBeValid)
      == CountViolations(objects[..n], rejects)
  {
    var parts := PerObjectIssues(objects, rejects);
    forall i | 0 <= i < n
      ensures CountRule(parts[i], AttackSpecVersionMustBeValid) == if rejects(objects[i]) then 1 else 0
    {
      IssuesForCount(objects, i, rejects, AttackSpecVersionMustBeValid);
    }
    SpecVersionTotalOver(objects, parts, n, rejects);
  }

  /** `SpecVersionTotal` over any parts that count one spec-version issue for each rejected object. */
  lemma {:induction false} SpecVersionTotalOver(objects: seq<BundleObject>, parts: seq<seq<Issue>>, n: nat, rejects: BundleObject -> bool)
    requires n <= |objects| && n <= |parts|
    requires forall i :: 0 <= i < n ==> CountRule(parts[i], AttackSpecVersionMustBeValid) == if rejects(objects[i]) then 1 else 0
    ensures CountRule(Flatten(parts, n), AttackSpecVersionMustBeValid) == CountViolations(objects[..n], rejects)
    decreases n
  {
    if n == 0 {
      assert objects[..0] == [];
    } else {
      var i := n - 1;
      SpecVersionTotalOver(objects, parts, i, rejects);
      CountFlattenStep(HasRule(AttackSpecVersionMustBeValid), parts, i);
      CountViolationsSnoc(objects[..n], rejects);
      assert objects[..n][..i] == objects[..i];
    }
  }

  /** The validator's repeat issues number the objects minus their distinct keys. */
  lemma DuplicateTotal(objects: seq<BundleObject>, rejects: BundleObject -> bool)
    ensures CountRule(Validation(objects, rejects), ObjectRefMustBeUnique) == |objects| - |KeySet(objects, |objects|)|
  {
    CountValidation(objects, rejects, ObjectRefMustBeUnique);
    CollectionCountIssuesCount(objects, ObjectRefMustBeUnique);
    CollectionIdIssuesCount(objects, ObjectRefMustBeUnique);
    RepeatTotal(objects, |objects|, rejects);
  }

  /** The validator's spec-version issues number the objects whose version it rejects. */
  lemma SpecVersionTotalAll(objects: seq<BundleObject>, rejects: BundleObject -> bool)
    ensures CountRule(Validation(objects, rejects), AttackSpecVersionMustBeValid) == CountViolations(objects, rejects)
  {
    CountValidation(objects, rejects, AttackSpecVersionMustBeValid);
    CollectionCountIssuesCount(objects, AttackSpecVersionMustBeValid);
    CollectionIdIssuesCount(objects, AttackSpecVersionMustBeValid);
    SpecVersionTotal(objects, |objects|, rejects);
    assert objects[..|objects|] == objects;
  }

  /** Ordering: the issues of the first `m` objects are a prefix of those of the first `n`. */
  lemma ObjectIssuesPrefix(objects: seq<BundleObject>, m: nat, n: nat, rejects: BundleObject -> bool)
    requires m <= n <= |objects|
    ensures ObjectIssues(objects, m, rejects) <= ObjectIssues(objects, n, rejects)
  {
    FlattenPrefix(PerObjectIssues(objects, rejects), m, n);
  }

  /** Ordering: all bundle-level issues, which carry no reference, precede every per-object issue. */
  lemma BundleIssuesFirst(objects: seq<BundleObject>, rejects: BundleObject -> bool)
    ensures var issues := Validation(objects, rejects);
      var b := |BundleLevelIssues(objects)|;
      && b <= 2
      && (forall k :: 0 <= k < b ==> issues[k].objectRef.None?)
      && (forall k :: b <= k < |issues| ==> issues[k].objectRef.Some?)
  {
    ObjectIssuesShape(objects, |objects|, rejects);
    var b, o := BundleLevelIssues(objects), ObjectIssues(objects, |objects|, rejects);
    assert forall k :: 0 <= k < |b| ==> b[k].objectRef.None?;
    assert forall k :: |b| <= k < |b + o| ==> (b + o)[k] == o[k - |b|] && o[k - |b|] in o;
  }

  /** An absent (or null) spec version behaves exactly like `2.0.0`. */
  lemma DefaultSpecVersionIsBaseline(obj: BundleObject, maxSpecVersion: SemVer.Version)
    requires obj.attackSpecVersion == Undefined || obj.attackSpecVersion == Null
    ensures SpecVersionViolation(obj, maxSpecVersion)
      == SpecVersionViolation(obj.(attackSpecVersion := Text(DefaultAttackSpecVersion)), maxSpecVersion)
    ensures SpecVersionViolation(obj, maxSpecVersion)
      <==> SemVer.GreaterThan(SemVer.Version(2, 0, 0, [], []), maxSpecVersion)
  {
    SemVer.BaselineParses();
  }

  function WithDefaultSpecVersion(obj: BundleObject): BundleObject {
    if obj.attackSpecVersion.Text? then obj else obj.(attackSpecVersion := Text(DefaultAttackSpecVersion))
  }

  function DefaultAll(objects: seq<BundleObject>): (r: seq<BundleObject>)
    ensures |r| == |objects|
    ensures forall i :: 0 <= i < |objects| ==> r[i] == WithDefaultSpecVersion(objects[i])
  {
    seq(|objects|, i requires 0 <= i < |objects| => WithDefaultSpecVersion(objects[i]))
  }

  lemma {:induction false} CollectionsOfDefaulted(objects: seq<BundleObject>)
    ensures |Collections(DefaultAll(objects))| == |Collections(objects)|
    ensures |Collections(objects)| > 0 ==> Collections(DefaultAll(objects))[0].id == Collections(objects)[0].id
    decreases |objects|
  {
    if |objects| > 0 {
      var d := DefaultAll(objects);
      assert d[1..] == DefaultAll(objects[1..]);
      assert d[0].objectType == objects[0].objectType && d[0].id == objects[0].id;
      CollectionsOfDefaulted(objects[1..]);
    }
  }

  lemma {:induction false} OccurrencesOfDefaulted(objects: seq<BundleObject>, n: nat, k: string)
    requires n <= |objects|
    ensures Occurrences(DefaultAll(objects), n, k) == Occurrences(objects, n, k)
    decreases n
  {
    if n > 0 {
      OccurrencesOfDefaulted(objects, n - 1, k);
      assert Key(DefaultAll(objects)[n - 1]) == Key(objects[n - 1]);
    }
  }

  lemma IssuesForOfDefaulted(objects: seq<BundleObject>, i: int, rejects: BundleObject -> bool)
    requires 0 <= i < |objects|
    requires forall obj :: rejects(WithDefaultSpecVersion(obj)) == rejects(obj)
    ensures IssuesFor(DefaultAll(objects), i, rejects) == IssuesFor(objects, i, rejects)
  {
    var d := DefaultAll(objects);
    OccurrencesOfDefaulted(objects, i, Key(objects[i]));
    assert Key(d[i]) == Key(objects[i]);
    assert RepeatIssues(d, i) == RepeatIssues(objects, i);
    assert SpecVersionIssues(d[i], rejects) == SpecVersionIssues(objects[i], rejects);
  }

  lemma PerObjectIssuesOfDefaulted(objects: seq<BundleObject>, rejects: BundleObject -> bool)
    requires forall obj :: rejects(WithDefaultSpecVersion(obj)) == rejects(obj)
    ensures PerObjectIssues(DefaultAll(objects), rejects) == PerObjectIssues(objects, rejects)
  {
    forall i | 0 <= i < |objects|
      ensures PerObjectIssues(DefaultAll(objects), rejects)[i] == PerObjectIssues(objects, rejects)[i]
    {
      IssuesForOfDefaulted(objects, i, rejects);
    }
  }

  /** Writing `2.0.0` into every object without a spec version changes no issue of the bundle. */
  lemma DefaultSpecVersionEquivalent(objects: seq<BundleObject>, maxSpecVersion: SemVer.Version)
    ensures Validation(DefaultAll(objects), Rejects(maxSpecVersion)) == Validation(objects, Rejects(maxSpecVersion))
  {
    forall obj: BundleObject | !obj.attackSpecVersion.Text?
      ensures SpecVersionViolation(WithDefaultSpecVersion(obj), maxSpecVersion) == SpecVersionViolation(obj, maxSpecVersion)
    {
      DefaultSpecVersionIsBaseline(obj, maxSpecVersion);
    }
    CollectionsOfDefaulted(objects);
    PerObjectIssuesOfDefaulted(objects, Rejects(maxSpecVersion));
  }

  /** `makeKey` is not injective: different id/modified pairs can share a key. */
  lemma MakeKeyCollision()
    ensures MakeKey(Text("a/b"), Text("c")) == MakeKey(Text("a"), Text("b/c"))
    ensures MakeKey(Undefined, Text("c")) == MakeKey(Text("undefined"), Text("c"))
  {
  }
}
