/**
 * The matrices service: its parameter checks, the organisation of a tactic's techniques
 * into super-techniques with their sub-techniques, and the defaults `create` fills in.
 */
module Matrices {
  import opened Common

  /** The errors the service raises, by their `errors` entry. */
  datatype ServiceError =
    | MissingParameter(parameterName: string)
    | BadlyFormattedParameter(parameterName: string)
    | InvalidQueryStringParameter(parameterName: string)
    | DuplicateId
    | DatabaseError(failure: DbFailure)      // the database's own error, passed on

  /** A database error's `name` and `code`. */
  datatype DbFailure = DbFailure(name: string, code: int)

  /** What a database call gives its callback. */
  datatype DbResult<T> = DbOk(value: T) | DbFailed(failure: DbFailure)

  /** What the service gives its callback, or the promise it returns. */
  datatype Reply<T> = Fail(error: ServiceError) | Done(value: T)

  /** The checks at the top of every operation on one version: `stixId` first, then `modified`. */
  function MissingVersionKey(stixId: Prop, modified: Prop): (r: Option<ServiceError>)
    ensures r.None? <==> Truthy(stixId) && Truthy(modified)
    ensures !Truthy(stixId) ==> r == Some(MissingParameter("stixId"))
    ensures Truthy(stixId) && !Truthy(modified) ==> r == Some(MissingParameter("modified"))
  {
    if !Truthy(stixId) then Some(MissingParameter("stixId"))
    else if !Truthy(modified) then Some(MissingParameter("modified"))
    else None
  }

  /** A failed query: a `CastError` is a badly formatted `stixId`, any other error is passed on. */
  function QueryError(failure: DbFailure): (e: ServiceError)
    ensures e == BadlyFormattedParameter("stixId") <==> failure.name == "CastError"
    ensures failure.name != "CastError" ==> e == DatabaseError(failure)
  {
    if failure.name == "CastError" then BadlyFormattedParameter("stixId") else DatabaseError(failure)
  }

  /** A failed save: a duplicate index (`MongoServerError` 11000) is `duplicateId`, any other error is passed on. */
  function SaveError(failure: DbFailure): (e: ServiceError)
    ensures e == DuplicateId <==> failure.name == "MongoServerError" && failure.code == 11000
    ensures e != DuplicateId ==> e == DatabaseError(failure)
  {
    if failure.name == "MongoServerError" && failure.code == 11000 then DuplicateId else DatabaseError(failure)
  }

  /**
   * `retrieveById`: every version (`versions = all`), the latest as a list of at most one
   * (`versions = latest`), or an invalid query-string parameter.
   */
  function RetrieveById<M>(stixId: Prop, versions: Prop, allVersions: DbResult<seq<M>>, latestVersion: DbResult<Option<M>>)
    : (r: Reply<seq<M>>)
    ensures !Truthy(stixId) ==> r == Fail(MissingParameter("stixId"))
    ensures Truthy(stixId) && versions != Text("all") && versions != Text("latest") ==>
      r == Fail(InvalidQueryStringParameter("versions"))
    ensures Truthy(stixId) && versions == Text("all") && allVersions.DbOk? ==> r == Done(allVersions.value)
    ensures Truthy(stixId) && versions == Text("all") && allVersions.DbFailed? ==> r == Fail(QueryError(allVersions.failure))
    ensures Truthy(stixId) && versions == Text("latest") && latestVersion.DbFailed? ==>
      r == Fail(QueryError(latestVersion.failure))
    ensures Truthy(stixId) && versions == Text("latest") && latestVersion.DbOk? ==>
      r.Done? && |r.value| <= 1 && (r.value == [] <==> latestVersion.value.None?)
    ensures r.Done? && versions == Text("latest") && |r.value| == 1 ==> latestVersion == DbOk(Some(r.value[0]))
  {
    if !Truthy(stixId) then Fail(MissingParameter("stixId"))
    else if versions == Text("all") then
      match allVersions
        case DbFailed(failure) => Fail(QueryError(failure))
        case DbOk(matrices) => Done(matrices)
    else if versions == Text("latest") then
      match latestVersion
        case DbFailed(failure) => Fail(QueryError(failure))
        case DbOk(found) => if found.Some? then Done([found.value]) else Done([])
    else Fail(InvalidQueryStringParameter("versions"))
  }

  /** `retrieveVersionById`: the one version, or nothing when there is none. */
  function RetrieveVersionById<M>(stixId: Prop, modified: Prop, found: DbResult<Option<M>>): (r: Reply<Option<M>>)
    ensures MissingVersionKey(stixId, modified).Some? ==> r == Fail(MissingVersionKey(stixId, modified).value)
    ensures MissingVersionKey(stixId, modified).None? && found.DbOk? ==> r == Done(found.value)
    ensures MissingVersionKey(stixId, modified).None? && found.DbFailed? ==> r == Fail(QueryError(found.failure))
  {
    if MissingVersionKey(stixId, modified).Some? then Fail(MissingVersionKey(stixId, modified).value)
    else match found
      case DbFailed(failure) => Fail(QueryError(failure))
      case DbOk(matrix) => Done(matrix)
  }

  /** What `updateFull` answers, and the document it handed to `save`, if it got that far. */
  datatype Update<D> = Update(reply: Reply<Option<D>>, saved: Option<D>)

  /**
   * `updateFull`: nothing for a missing version; otherwise `Object.assign(document, data)`
   * copies every property of `data` over the found document, which is then saved. A
   * document is modelled by its top-level properties.
   */
  function UpdateFull<V>(stixId: Prop, modified: Prop, data: map<string, V>,
                         found: DbResult<Option<map<string, V>>>, saveResult: DbResult<map<string, V>>)
    : (r: Update<map<string, V>>)
    ensures MissingVersionKey(stixId, modified).Some? ==> r == Update(Fail(MissingVersionKey(stixId, modified).value), None)
    ensures MissingVersionKey(stixId, modified).None? && found.DbFailed? ==> r == Update(Fail(QueryError(found.failure)), None)
    ensures MissingVersionKey(stixId, modified).None? && found == DbOk(None) ==> r == Update(Done(None), None)
    ensures MissingVersionKey(stixId, modified).None? && found.DbOk? && found.value.Some? ==>
      var document := found.value.value;
      && r.saved.Some?
      && r.saved.value.Keys == document.Keys + data.Keys
      && (forall k :: k in data ==> r.saved.value[k] == data[k])
      && (forall k :: k in document && k !in data ==> r.saved.value[k] == document[k])
      && (saveResult.DbOk? ==> r.reply == Done(Some(saveResult.value)))
      && (saveResult.DbFailed? ==> r.reply == Fail(SaveError(saveResult.failure)))
  {
    if MissingVersionKey(stixId, modified).Some? then Update(Fail(MissingVersionKey(stixId, modified).value), None)
    else if found.DbFailed? then Update(Fail(QueryError(found.failure)), None)
    else if found.value.None? then Update(Done(None), None)
    else
      var merged := found.value.value + data;
      if saveResult.DbFailed? then Update(Fail(SaveError(saveResult.failure)), Some(merged))
      else Update(Done(Some(saveResult.value)), Some(merged))
  }

  /** `deleteVersionById`: the removed version, or nothing; a database error is passed on as it is. */
  function DeleteVersionById<M>(stixId: Prop, modified: Prop, removed: DbResult<Option<M>>): (r: Reply<Option<M>>)
    ensures MissingVersionKey(stixId, modified).Some? ==> r == Fail(MissingVersionKey(stixId, modified).value)
    ensures MissingVersionKey(stixId, modified).None? ==>
      r == match removed case DbOk(matrix) => Done(matrix) case DbFailed(failure) => Fail(DatabaseError(failure))
  {
    if MissingVersionKey(stixId, modified).Some? then Fail(MissingVersionKey(stixId, modified).value)
    else match removed
      case DbFailed(failure) => Fail(DatabaseError(failure))
      case DbOk(matrix) => Done(matrix)
  }

  /** The four operations on one version refuse a missing `stixId`, then a missing `modified`, before any database call. */
  lemma VersionKeyChecksAgree<V>(stixId: Prop, modified: Prop, data: map<string, V>,
                                 found: DbResult<Option<map<string, V>>>, saved: DbResult<map<string, V>>)
    requires !Truthy(stixId) || !Truthy(modified)
    ensures var e := MissingParameter(if !Truthy(stixId) then "stixId" else "modified");
      && RetrieveVersionById(stixId, modified, found) == Fail(e)
      && UpdateFull(stixId, modified, data, found, saved) == Update(Fail(e), None)
      && DeleteVersionById(stixId, modified, found) == Fail(e)
  {
  }

  // The organisation of a tactic's techniques.

  /** A technique's `x_mitre_is_subtechnique`: absent, a boolean, or any other value. */
  datatype SubtechniqueFlag = FlagAbsent | FlagBoolean(b: bool) | FlagOther

  /** A technique's `stix.x_mitre_is_subtechnique` and `workspace.attack_id`. */
  datatype MatrixTechnique = MatrixTechnique(isSubtechnique: SubtechniqueFlag, attackId: string)

  /** A super-technique with the `subtechniques` the loop attaches to it. */
  datatype GroupedTechnique = GroupedTechnique(technique: MatrixTechnique, subtechniques: seq<MatrixTechnique>)

  /** Only a strict `false` makes a super-technique. */
  predicate IsSuperTechnique(technique: MatrixTechnique) {
    technique.isSubtechnique == FlagBoolean(false)
  }

  predicate IsSubtechnique(technique: MatrixTechnique) {
    !IsSuperTechnique(technique)
  }

  /** `attackId.split(".")[0]`: everything before the first `.`. */
  function AttackIdPrefix(attackId: string): (prefix: string)
    ensures prefix <= attackId
    ensures '.' !in prefix
    ensures |prefix| < |attackId| ==> attackId[|prefix|] == '.'
  {
    if |attackId| == 0 || attackId[0] == '.' then ""
    else [attackId[0]] + AttackIdPrefix(attackId[1..])
  }

  /** The sub-technique test of the inner loop. */
  function SubtechniqueOf(superTechnique: MatrixTechnique): MatrixTechnique -> bool {
    (sub: MatrixTechnique) => AttackIdPrefix(sub.attackId) == superTechnique.attackId
  }

  /** The specification of the organisation: each super-technique, in order, with its sub-techniques in order. */
  function Grouped(techniques: seq<MatrixTechnique>): (r: seq<GroupedTechnique>)
    ensures |r| == |Filter(IsSuperTechnique, techniques)|
  {
    var superTechniques := Filter(IsSuperTechnique, techniques);
    var subTechniques := Filter(IsSubtechnique, techniques);
    seq(|superTechniques|, i requires 0 <= i < |superTechniques| =>
      GroupedTechnique(superTechniques[i], Filter(SubtechniqueOf(superTechniques[i]), subTechniques)))
  }

  /** The two loops of `retrieveVersionTechniquesById`: split the techniques, then attach each super-technique's sub-techniques. */
  method OrganizeSubtechniques(techniques: seq<MatrixTechnique>) returns (superTechniques: seq<GroupedTechnique>)
    ensures superTechniques == Grouped(techniques)
  {
    var supers: seq<MatrixTechnique> := [];
    var subs: seq<MatrixTechnique> := [];
    for i := 0 to |techniques|
      invariant supers == Filter(IsSuperTechnique, techniques[..i])
      invariant subs == Filter(IsSubtechnique, techniques[..i])
    {
      FilterSnoc(IsSuperTechnique, techniques, i);
      FilterSnoc(IsSubtechnique, techniques, i);
      if techniques[i].isSubtechnique == FlagBoolean(false) {
        supers := supers + [techniques[i]];
      } else {
        subs := subs + [techniques[i]];
      }
    }
    assert techniques[..|techniques|] == techniques;
    superTechniques := [];
    for j := 0 to |supers|
      invariant |superTechniques| == j
      invariant forall k :: 0 <= k < j ==>
        superTechniques[k] == GroupedTechnique(supers[k], Filter(SubtechniqueOf(supers[k]), subs))
    {
      var members := SubtechniquesOf(supers[j], subs);
      superTechniques := superTechniques + [GroupedTechnique(supers[j], members)];
    }
  }

  /** The inner loop: the sub-techniques whose `attack_id` prefix is the super-technique's `attack_id`. */
  method SubtechniquesOf(superTechnique: MatrixTechnique, subs: seq<MatrixTechnique>) returns (members: seq<MatrixTechnique>)
    ensures members == Filter(SubtechniqueOf(superTechnique), subs)
  {
    members := [];
    for k := 0 to |subs|
      invariant members == Filter(SubtechniqueOf(superTechnique), subs[..k])
    {
      FilterSnoc(SubtechniqueOf(superTechnique), subs, k);
      if AttackIdPrefix(subs[k].attackId) == superTechnique.attackId {
        members := members + [subs[k]];
      }
    }
    assert subs[..|subs|] == subs;
  }

  function SubOfSuper(superTechnique: MatrixTechnique): MatrixTechnique -> bool {
    (t: MatrixTechnique) => IsSubtechnique(t) && AttackIdPrefix(t.attackId) == superTechnique.attackId
  }

  /**
   * The organisation keeps exactly the super-techniques, in order, and under each exactly
   * the sub-techniques whose `attack_id` is the super-technique's followed by nothing or
   * by `.` and more, in their original order.
   */
  lemma GroupedTechniques(techniques: seq<MatrixTechnique>)
    ensures var grouped := Grouped(techniques);
      && |grouped| == |Filter(IsSuperTechnique, techniques)|
      && (forall i :: 0 <= i < |grouped| ==> grouped[i].technique == Filter(IsSuperTechnique, techniques)[i])
      && (forall i :: 0 <= i < |grouped| ==>
            grouped[i].subtechniques == Filter(SubOfSuper(grouped[i].technique), techniques)
            && IsSubsequence(grouped[i].subtechniques, techniques))
      && (forall i, t :: (0 <= i < |grouped| && t in techniques && !IsSuperTechnique(t)
            && AttackIdPrefix(t.attackId) == grouped[i].technique.attackId) ==> t in grouped[i].subtechniques)
  {
    var grouped := Grouped(techniques);
    var supers := Filter(IsSuperTechnique, techniques);
    forall i | 0 <= i < |grouped|
      ensures grouped[i].subtechniques == Filter(SubOfSuper(grouped[i].technique), techniques)
      ensures IsSubsequence(grouped[i].subtechniques, techniques)
    {
      FilterFilter(SubtechniqueOf(supers[i]), IsSubtechnique, SubOfSuper(supers[i]), techniques);
      FilterIsSubsequence(SubOfSuper(supers[i]), techniques);
    }
    forall i, t | 0 <= i < |grouped| && t in techniques && !IsSuperTechnique(t)
        && AttackIdPrefix(t.attackId) == grouped[i].technique.attackId
      ensures t in grouped[i].subtechniques
    {
      FilterKeeps(SubOfSuper(supers[i]), techniques, t);
    }
  }

  // The tactics of one matrix version.

  /** A tactic's `stix.name` and `stix.modified`. */
  datatype MatrixTactic = MatrixTactic(name: string, modified: Prop)

  /** A tactic with the `techniques` attached to it. */
  datatype TacticEntry = TacticEntry(tactic: MatrixTactic, techniques: seq<GroupedTechnique>)

  /** What one tactic reference gives: nothing when the lookup's list is empty, otherwise the tactic with its techniques organised. */
  function Resolve(tacticId: string, retrieveTactic: string -> seq<MatrixTactic>,
                   techniquesFor: (string, Prop) -> seq<MatrixTechnique>): Option<TacticEntry> {
    var found := retrieveTactic(tacticId);
    if |found| == 0 then None
    else Some(TacticEntry(found[0], Grouped(techniquesFor(tacticId, found[0].modified))))
  }

  /** What each tactic reference gives, in order. */
  function Entries(tacticRefs: seq<string>, retrieveTactic: string -> seq<MatrixTactic>,
                   techniquesFor: (string, Prop) -> seq<MatrixTechnique>): (entries: seq<Option<TacticEntry>>)
    ensures |entries| == |tacticRefs|
  {
    seq(|tacticRefs|, i requires 0 <= i < |tacticRefs| => Resolve(tacticRefs[i], retrieveTactic, techniquesFor))
  }

  /** Entry `i` is what reference `i` gives. */
  lemma EntryAt(tacticRefs: seq<string>, retrieveTactic: string -> seq<MatrixTactic>,
                   techniquesFor: (string, Prop) -> seq<MatrixTechnique>, i: nat)
    requires i < |tacticRefs|
    ensures Entries(tacticRefs, retrieveTactic, techniquesFor)[i] == Resolve(tacticRefs[i], retrieveTactic, techniquesFor)
  {
  }

  /** The body of the outer loop for one reference: look the tactic up and organise its techniques. */
  method ResolveTactic(tacticId: string, retrieveTactic: string -> seq<MatrixTactic>,
                       techniquesFor: (string, Prop) -> seq<MatrixTechnique>) returns (entry: Option<TacticEntry>)
    ensures entry == Resolve(tacticId, retrieveTactic, techniquesFor)
  {
    var found := retrieveTactic(tacticId);
    if |found| > 0 {
      var tactic := found[0];
      var techniques := techniquesFor(tacticId, tactic.modified);
      var superTechniques := OrganizeSubtechniques(techniques);
      entry := Some(TacticEntry(tactic, superTechniques));
    } else {
      entry := None;
    }
  }

  /**
   * The intended `tactics_techniques` after the first `n` references: each tactic found, by
   * name, a later one replacing an earlier one.
   */
  function TacticsTechniques(entries: seq<Option<TacticEntry>>, n: nat): map<string, TacticEntry>
    requires n <= |entries|
  {
    if n == 0 then map[]
    else
      var tacticsTechniques := TacticsTechniques(entries, n - 1);
      match entries[n - 1]
        case None => tacticsTechniques
        case Some(entry) => tacticsTechniques[entry.tactic.name := entry]
  }

  /** One more reference adds its entry, if any, under the tactic's name. */
  lemma TacticsTechniquesSnoc(entries: seq<Option<TacticEntry>>, i: nat)
    requires i < |entries|
    ensures TacticsTechniques(entries, i + 1)
      == if entries[i].None? then TacticsTechniques(entries, i)
         else TacticsTechniques(entries, i)[entries[i].value.tactic.name := entries[i].value]
  {
  }

  /** Reference `j` finds a tactic named `name`. */
  predicate FindsTactic(entries: seq<Option<TacticEntry>>, j: int, name: string) {
    0 <= j < |entries| && entries[j].Some? && entries[j].value.tactic.name == name
  }

  /** The last of the first `n` references that finds a tactic named `name`, or -1 when there is none. */
  function LastFinding(entries: seq<Option<TacticEntry>>, n: nat, name: string): (j: int)
    requires n <= |entries|
    ensures -1 <= j < n
    ensures j >= 0 ==> FindsTactic(entries, j, name)
    ensures forall j' :: j < j' < n ==> !FindsTactic(entries, j', name)
  {
    if n == 0 then -1
    else if FindsTactic(entries, n - 1, name) then n - 1
    else LastFinding(entries, n - 1, name)
  }

  /**
   * A name is a key exactly when some reference finds a tactic of that name, and last one
   * wins: its entry is the one from the last such reference.
   */
  lemma {:induction false} TacticsTechniquesLookup(entries: seq<Option<TacticEntry>>, n: nat, name: string)
    requires n <= |entries|
    ensures name in TacticsTechniques(entries, n) <==> LastFinding(entries, n, name) >= 0
    ensures var j := LastFinding(entries, n, name);
      j >= 0 ==> TacticsTechniques(entries, n)[name] == entries[j].value
    decreases n
  {
    if n > 0 {
      TacticsTechniquesLookup(entries, n - 1, name);
    }
  }

  /** Every entry holds super-techniques only, each with its own sub-techniques. */
  lemma OnlySuperTechniquesAttached(tacticRefs: seq<string>, retrieveTactic: string -> seq<MatrixTactic>,
                                    techniquesFor: (string, Prop) -> seq<MatrixTechnique>, name: string)
    requires var entries := Entries(tacticRefs, retrieveTactic, techniquesFor);
      name in TacticsTechniques(entries, |entries|)
    ensures var entries := Entries(tacticRefs, retrieveTactic, techniquesFor);
      forall g :: g in TacticsTechniques(entries, |entries|)[name].techniques ==>
        IsSuperTechnique(g.technique) && forall t :: t in g.subtechniques ==> !IsSuperTechnique(t)
  {
    var entries := Entries(tacticRefs, retrieveTactic, techniquesFor);
    TacticsTechniquesLookup(entries, |entries|, name);
    var j := LastFinding(entries, |entries|, name);
    EntryAt(tacticRefs, retrieveTactic, techniquesFor, j);
    var techniques := techniquesFor(tacticRefs[j], retrieveTactic(tacticRefs[j])[0].modified);
    GroupedTechniques(techniques);
    forall g | g in Grouped(techniques)
      ensures IsSuperTechnique(g.technique) && forall t :: t in g.subtechniques ==> !IsSuperTechnique(t)
    {
      var i :| 0 <= i < |Grouped(techniques)| && Grouped(techniques)[i] == g;
      assert g.technique in Filter(IsSuperTechnique, techniques);
    }
  }

  /** The first of the first `n` references that finds a tactic named `name`, or -1 when there is none. */
  function FirstFinding(entries: seq<Option<TacticEntry>>, n: nat, name: string): (j: int)
    requires n <= |entries|
    ensures -1 <= j < n
    ensures j >= 0 ==> FindsTactic(entries, j, name)
    ensures forall j' :: 0 <= j' < n && FindsTactic(entries, j', name) ==> 0 <= j <= j'
  {
    if n == 0 then -1
    else
      var j := FirstFinding(entries, n - 1, name);
      if j >= 0 then j
      else if FindsTactic(entries, n - 1, name) then n - 1
      else -1
  }

  /**
   * The property order of `tactics_techniques` after the first `n` references: assigning to a
   * name that is already a property keeps its place, a new name goes last.
   */
  function TacticOrder(entries: seq<Option<TacticEntry>>, n: nat): seq<string>
    requires n <= |entries|
  {
    if n == 0 then []
    else
      var order := TacticOrder(entries, n - 1);
      match entries[n - 1]
        case None => order
        case Some(entry) => if entry.tactic.name in order then order else order + [entry.tactic.name]
  }

  /** The properties in order and the value of each. */
  datatype TacticsObject = TacticsObject(keys: seq<string>, values: map<string, TacticEntry>)

  /** The names in order are exactly the properties of the intended `tactics_techniques`. */
  lemma {:induction false} TacticOrderKeys(entries: seq<Option<TacticEntry>>, n: nat)
    requires n <= |entries|
    ensures forall name :: name in TacticOrder(entries, n) <==> name in TacticsTechniques(entries, n)
    decreases n
  {
    if n > 0 {
      TacticOrderKeys(entries, n - 1);
    }
  }

  /** One more reference leaves the first finding of every name already found where it was. */
  lemma FirstFindingStep(entries: seq<Option<TacticEntry>>, n: nat, name: string)
    requires 0 < n <= |entries|
    ensures FirstFinding(entries, n - 1, name) >= 0 ==> FirstFinding(entries, n, name) == FirstFinding(entries, n - 1, name)
    ensures FirstFinding(entries, n - 1, name) < 0 && entries[n - 1].Some? && entries[n - 1].value.tactic.name == name ==>
      FirstFinding(entries, n, name) == n - 1
  {
  }

  /** A name is a property exactly when some reference finds it. */
  lemma {:induction false} TacticOrderMember(entries: seq<Option<TacticEntry>>, n: nat, name: string)
    requires n <= |entries|
    ensures name in TacticOrder(entries, n) <==> FirstFinding(entries, n, name) >= 0
    decreases n
  {
    if n > 0 {
      TacticOrderMember(entries, n - 1, name);
    }
  }

  /** Of two properties, the earlier was first found by an earlier reference. */
  lemma {:induction false} TacticOrderPair(entries: seq<Option<TacticEntry>>, n: nat, k: nat, l: nat)
    requires n <= |entries| && k < l < |TacticOrder(entries, n)|
    ensures FirstFinding(entries, n, TacticOrder(entries, n)[k]) < FirstFinding(entries, n, TacticOrder(entries, n)[l])
    decreases n
  {
    var previous := TacticOrder(entries, n - 1);
    var order := TacticOrder(entries, n);
    var earlier, later := order[k], order[l];
    assert earlier == previous[k];
    TacticOrderMember(entries, n - 1, earlier);
    FirstFindingStep(entries, n, earlier);
    if l < |previous| {
      assert later == previous[l];
      TacticOrderMember(entries, n - 1, later);
      FirstFindingStep(entries, n, later);
      TacticOrderPair(entries, n - 1, k, l);
    } else {
      TacticOrderMember(entries, n - 1, later);
      FirstFindingStep(entries, n, later);
    }
  }

  /**
   * The properties come in the order in which each name was first found, and a name is a
   * property exactly when some reference finds it; so no name appears twice.
   */
  lemma TacticOrderFirstFound(entries: seq<Option<TacticEntry>>, n: nat)
    requires n <= |entries|
    ensures forall name :: name in TacticOrder(entries, n) <==> FirstFinding(entries, n, name) >= 0
    ensures var order := TacticOrder(entries, n);
      forall k, l :: 0 <= k < l < |order| ==> FirstFinding(entries, n, order[k]) < FirstFinding(entries, n, order[l])
    ensures var order := TacticOrder(entries, n);
      forall k, l :: 0 <= k < l < |order| ==> order[k] != order[l]
  {
    forall name {
      TacticOrderMember(entries, n, name);
    }
    forall k: nat, l: nat | k < l < |TacticOrder(entries, n)| {
      TacticOrderPair(entries, n, k, l);
    }
  }

  /** One more reference appends the tactic's name when it is not yet a property. */
  lemma TacticOrderSnoc(entries: seq<Option<TacticEntry>>, i: nat)
    requires i < |entries|
    ensures entries[i].None? ==> TacticOrder(entries, i + 1) == TacticOrder(entries, i)
    ensures entries[i].Some? && entries[i].value.tactic.name in TacticsTechniques(entries, i) ==>
      TacticOrder(entries, i + 1) == TacticOrder(entries, i)
    ensures entries[i].Some? && entries[i].value.tactic.name !in TacticsTechniques(entries, i) ==>
      TacticOrder(entries, i + 1) == TacticOrder(entries, i) + [entries[i].value.tactic.name]
  {
    TacticOrderKeys(entries, i);
  }

  /** The outer loop, skipping the references whose tactic is not found. */
  method OrganizeTactics(tacticRefs: seq<string>, retrieveTactic: string -> seq<MatrixTactic>,
                         techniquesFor: (string, Prop) -> seq<MatrixTechnique>)
    returns (tacticsTechniques: TacticsObject)
    ensures var entries := Entries(tacticRefs, retrieveTactic, techniquesFor);
      tacticsTechniques == TacticsObject(TacticOrder(entries, |tacticRefs|), TacticsTechniques(entries, |tacticRefs|))
  {
    ghost var entries := Entries(tacticRefs, retrieveTactic, techniquesFor);
    var keys, values := [], map[];
    for i := 0 to |tacticRefs|
      invariant keys == TacticOrder(entries, i)
      invariant values == TacticsTechniques(entries, i)
    {
      var entry := ResolveTactic(tacticRefs[i], retrieveTactic, techniquesFor);
      EntryAt(tacticRefs, retrieveTactic, techniquesFor, i);
      TacticsTechniquesSnoc(entries, i);
      TacticOrderSnoc(entries, i);
      if entry.Some? {
        var name := entry.value.tactic.name;
        if name !in values {
          keys := keys + [name];
        }
        values := values[name := entry.value];
      }
    }
    tacticsTechniques := TacticsObject(keys, values);
  }

  /**
   * `retrieveVersionTechniquesById`: the checks, the lookup of the matrix version, then its
   * tactics with their techniques; nothing when the version is not found.
   */
  method RetrieveVersionTechniquesById(stixId: Prop, modified: Prop, found: DbResult<Option<seq<string>>>,
                                       retrieveTactic: string -> seq<MatrixTactic>,
                                       techniquesFor: (string, Prop) -> seq<MatrixTechnique>)
    returns (r: Reply<Option<TacticsObject>>)
    ensures MissingVersionKey(stixId, modified).Some? ==> r == Fail(MissingVersionKey(stixId, modified).value)
    ensures MissingVersionKey(stixId, modified).None? ==> r == match found
      case DbFailed(failure) => Fail(QueryError(failure))
      case DbOk(None) => Done(None)
      case DbOk(Some(tacticRefs)) =>
        var entries := Entries(tacticRefs, retrieveTactic, techniquesFor);
        Done(Some(TacticsObject(TacticOrder(entries, |tacticRefs|), TacticsTechniques(entries, |tacticRefs|))))
  {
    var missing := MissingVersionKey(stixId, modified);
    if missing.Some? {
      return Fail(missing.value);
    }
    match found {
      case DbFailed(failure) =>
        r := Fail(QueryError(failure));
      case DbOk(None) =>
        r := Done(None);
      case DbOk(Some(tacticRefs)) =>
        var tacticsTechniques := OrganizeTactics(tacticRefs, retrieveTactic, techniquesFor);
        r := Done(Some(tacticsTechniques));
    }
  }

  /**
   * Why the outer loop as written throws at a reference: the lookup's list is always truthy, so
   * `tactic[0].stix` of an empty one throws; and for a tactic that is found, the techniques
   * lookup was taken off the tactics service without its receiver, so `this.repository`
   * inside it throws, and with no callback passed it throws again to the loop.
   */
  datatype Cause = TacticNotFound | UnboundTechniquesCall

  /** The outer loop as written: the properties so far, or the reference at which it threw. */
  datatype Assembly = Assembled(tacticsTechniques: TacticsObject) | Threw(reference: nat, cause: Cause)

  function TacticsTechniquesAsWritten(entries: seq<Option<TacticEntry>>, n: nat): Assembly
    requires n <= |entries|
  {
    if n == 0 then Assembled(TacticsObject([], map[]))
    else match TacticsTechniquesAsWritten(entries, n - 1)
      case Threw(reference, cause) => Threw(reference, cause)
      case Assembled(_) => Threw(n - 1, if entries[n - 1].None? then TacticNotFound else UnboundTechniquesCall)
  }

  /** As written, the loop gets through no reference at all: it throws at the first one, whatever that gives. */
  lemma {:induction false} AsWrittenThrowsAtFirstReference(entries: seq<Option<TacticEntry>>, n: nat)
    requires n <= |entries|
    ensures n == 0 ==> TacticsTechniquesAsWritten(entries, n) == Assembled(TacticsObject([], map[]))
    ensures n > 0 ==>
      TacticsTechniquesAsWritten(entries, n) == Threw(0, if entries[0].None? then TacticNotFound else UnboundTechniquesCall)
    decreases n
  {
    if n > 1 {
      AsWrittenThrowsAtFirstReference(entries, n - 1);
    }
  }

  /**
   * `retrieveVersionTechniquesById` as written: `None` when the callback is never called,
   * because the loop throws inside the lookup's callback.
   */
  function RetrieveVersionTechniquesByIdAsWritten(stixId: Prop, modified: Prop, found: DbResult<Option<seq<string>>>,
                                                  retrieveTactic: string -> seq<MatrixTactic>,
                                                  techniquesFor: (string, Prop) -> seq<MatrixTechnique>)
    : Option<Reply<Option<TacticsObject>>>
  {
    if MissingVersionKey(stixId, modified).Some? then Some(Fail(MissingVersionKey(stixId, modified).value))
    else match found
      case DbFailed(failure) => Some(Fail(QueryError(failure)))
      case DbOk(None) => Some(Done(None))
      case DbOk(Some(tacticRefs)) =>
        var entries := Entries(tacticRefs, retrieveTactic, techniquesFor);
        match TacticsTechniquesAsWritten(entries, |tacticRefs|)
          case Threw(_, _) => None
          case Assembled(tacticsTechniques) => Some(Done(Some(tacticsTechniques)))
  }

  /**
   * As written, the reply is lost exactly for a matrix version that is found and has at least
   * one tactic reference, whether or not its tactics are found; otherwise it is the intended one.
   */
  lemma AsWrittenGivesNoReply(stixId: Prop, modified: Prop, found: DbResult<Option<seq<string>>>,
                               retrieveTactic: string -> seq<MatrixTactic>,
                               techniquesFor: (string, Prop) -> seq<MatrixTechnique>)
    ensures var r := RetrieveVersionTechniquesByIdAsWritten(stixId, modified, found, retrieveTactic, techniquesFor);
      r.None? <==> MissingVersionKey(stixId, modified).None? && found.DbOk? && found.value.Some? && |found.value.value| > 0
    ensures var r := RetrieveVersionTechniquesByIdAsWritten(stixId, modified, found, retrieveTactic, techniquesFor);
      r.Some? && MissingVersionKey(stixId, modified).None? && found.DbOk? && found.value.Some? ==>
        found.value.value == [] && r.value == Done(Some(TacticsObject([], map[])))
  {
    if MissingVersionKey(stixId, modified).None? && found.DbOk? && found.value.Some? {
      var tacticRefs := found.value.value;
      var entries := Entries(tacticRefs, retrieveTactic, techniquesFor);
      AsWrittenThrowsAtFirstReference(entries, |tacticRefs|);
    }
  }

  /** A matrix whose one tactic is found: no reply as written, that tactic as intended. */
  lemma FoundTacticGivesNoReply()
    ensures var retrieveTactic := (ref: string) => [MatrixTactic("Execution", Text("2024-01-01"))];
      var techniquesFor := (ref: string, modified: Prop) => [];
      var found := DbOk(Some(["x-mitre-tactic--execution"]));
      var entry := TacticEntry(MatrixTactic("Execution", Text("2024-01-01")), []);
      && RetrieveVersionTechniquesByIdAsWritten(Text("x-mitre-matrix--m"), Text("2024-01-01"), found, retrieveTactic, techniquesFor).None?
      && TacticOrder(Entries(["x-mitre-tactic--execution"], retrieveTactic, techniquesFor), 1) == ["Execution"]
      && TacticsTechniques(Entries(["x-mitre-tactic--execution"], retrieveTactic, techniquesFor), 1) == map["Execution" := entry]
  {
    var retrieveTactic := (ref: string) => [MatrixTactic("Execution", Text("2024-01-01"))];
    var techniquesFor := (ref: string, modified: Prop) => [];
    EntryAt(["x-mitre-tactic--execution"], retrieveTactic, techniquesFor, 0);
    AsWrittenThrowsAtFirstReference(Entries(["x-mitre-tactic--execution"], retrieveTactic, techniquesFor), 1);
    assert Grouped([]) == [];
  }

  /** A matrix whose one tactic reference is not found: a throw as written, an empty result as intended. */
  lemma MissingTacticThrows()
    ensures var entries := Entries(["x-mitre-tactic--missing"], (ref: string) => [], (ref: string, modified: Prop) => []);
      && TacticsTechniquesAsWritten(entries, 1) == Threw(0, TacticNotFound)
      && TacticsTechniques(entries, 1) == map[]
  {
    EntryAt(["x-mitre-tactic--missing"], (ref: string) => [], (ref: string, modified: Prop) => [], 0);
  }

  // `create`.

  /** The fields of a matrix `create` may set. */
  datatype MatrixStix = MatrixStix(id: Prop, attackSpecVersion: Prop, createdByRef: Prop, modifiedByRef: Prop)
  datatype MatrixData = MatrixData(stix: MatrixStix, createdByUserAccount: Prop)
  datatype CreateOptions = CreateOptions(importing: Prop, userAccountId: Prop)

  /**
   * Whether `create` gets past the awaits before its `try`: when not importing, setting the
   * default marking definitions, reading the organisation identity and, for a truthy id,
   * looking the id up. Any of them that rejects ends `create` with its error as it is.
   */
  predicate ReachesSave(data: MatrixData, options: CreateOptions, markingFailure: Option<DbFailure>,
                        identity: DbResult<Prop>, existing: DbResult<bool>) {
    Truthy(options.importing)
    || (markingFailure.None? && identity.DbOk? && (!Truthy(data.stix.id) || existing.DbOk?))
  }

  /**
   * `create`: unless importing, default the spec version, record the creating account, and
   * either mark a new version of an existing matrix as modified by the organisation or give a
   * new matrix its id and both references; then save. `markingFailure` is the rejection of
   * `setDefaultMarkingDefinitions`, `identity` what `retrieveOrganizationIdentityRef` gives, and
   * `existing` whether the lookup by `stix.id` finds a matrix; that lookup is made only for a
   * truthy id.
   */
  method Create(data: MatrixData, options: CreateOptions, configSpecVersion: string, markingFailure: Option<DbFailure>,
                identity: DbResult<Prop>, existing: DbResult<bool>, newUuid: string, saveFailure: Option<DbFailure>)
    returns (r: Reply<MatrixData>)
    ensures r.Done? <==> ReachesSave(data, options, markingFailure, identity, existing) && saveFailure.None?
    ensures !Truthy(options.importing) && markingFailure.Some? ==> r == Fail(DatabaseError(markingFailure.value))
    ensures !Truthy(options.importing) && markingFailure.None? && identity.DbFailed? ==>
      r == Fail(DatabaseError(identity.failure))
    ensures !Truthy(options.importing) && markingFailure.None? && identity.DbOk? && Truthy(data.stix.id) && existing.DbFailed? ==>
      r == Fail(DatabaseError(existing.failure))
    ensures ReachesSave(data, options, markingFailure, identity, existing) && saveFailure.Some? ==>
      r == Fail(SaveError(saveFailure.value))
    ensures r.Done? && Truthy(options.importing) ==> r.value == data
    ensures r.Done? && !Truthy(options.importing) ==>
      var stix := r.value.stix;
      var organizationIdentityRef := identity.value;
      var existingObject := Truthy(data.stix.id) && existing.value;
      && stix.attackSpecVersion == Text(Coalesce(data.stix.attackSpecVersion, configSpecVersion))
      && r.value.createdByUserAccount
         == (if Truthy(options.userAccountId) then options.userAccountId else data.createdByUserAccount)
      && stix.modifiedByRef == organizationIdentityRef
      && (existingObject ==> stix.id == data.stix.id && stix.createdByRef == data.stix.createdByRef)
      && (!existingObject ==> (stix.createdByRef == organizationIdentityRef
            && stix.id == if Truthy(data.stix.id) then data.stix.id else Text("x-mitre-matrix--" + newUuid)))
      && Truthy(stix.id)
  {
    var matrix := data;
    if !Truthy(options.importing) {
      matrix := matrix.(stix := matrix.stix.(attackSpecVersion := Text(Coalesce(matrix.stix.attackSpecVersion, configSpecVersion))));
      if Truthy(options.userAccountId) {
        matrix := matrix.(createdByUserAccount := options.userAccountId);
      }
      if markingFailure.Some? {
        return Fail(DatabaseError(markingFailure.value));
      }
      if identity.DbFailed? {
        return Fail(DatabaseError(identity.failure));
      }
      var organizationIdentityRef := identity.value;
      var existingObject := false;
      if Truthy(matrix.stix.id) {
        if existing.DbFailed? {
          return Fail(DatabaseError(existing.failure));
        }
        existingObject := existing.value;
      }
      if existingObject {
        matrix := matrix.(stix := matrix.stix.(modifiedByRef := organizationIdentityRef));
      } else {
        var id := if Truthy(matrix.stix.id) then matrix.stix.id else Text("x-mitre-matrix--" + newUuid);
        matrix := matrix.(stix := matrix.stix.(id := id, createdByRef := organizationIdentityRef,
                                               modifiedByRef := organizationIdentityRef));
      }
    }
    match saveFailure {
      case Some(failure) => r := Fail(SaveError(failure));
      case None => r := Done(matrix);
    }
  }
}
