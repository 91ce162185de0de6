/** The techniques service: which tactics a technique belongs to, and their retrieval one page at a time. */
module TechniquesService {
  import opened Common
  import opened KillChain
  import TacticsService

  /** `tacticMatchesTechnique(technique)(tactic)`: the same test as the tactics service's, with the arguments the other way round. */
  predicate TacticMatchesTechnique(domainToKillChainMap: map<string, string>, technique: Technique, tactic: Tactic) {
    var tacticKillChainNames := KillChainNames(domainToKillChainMap, tactic);
    Any((phase: KillChainPhase) => phase.phaseName == tactic.shortname && phase.killChainName in tacticKillChainNames,
        technique.killChainPhases)
  }

  /** A tactic matches a technique exactly when the technique matches the tactic. */
  lemma MatchesAgree(domainToKillChainMap: map<string, string>, technique: Technique, tactic: Tactic)
    ensures TacticMatchesTechnique(domainToKillChainMap, technique, tactic)
      <==> TacticsService.TechniqueMatchesTactic(domainToKillChainMap, tactic, technique)
  {
  }

  function MatchesTechnique(domainToKillChainMap: map<string, string>, technique: Technique): Tactic -> bool {
    (tactic: Tactic) => TacticMatchesTechnique(domainToKillChainMap, technique, tactic)
  }

  /**
   * `retrieveTacticsForTechnique` as written: `this.tacticMatchesTechnique` (and
   * `this.getPageOfData` after it) are static methods looked up on the service instance,
   * which gives `undefined`, and calling it throws.
   */
  function RetrieveTacticsForTechnique(
    stixId: Prop, modified: Prop, options: PageOptions,
    technique: Lookup<Technique>, allTactics: Fetch<seq<Tactic>>)
    : (r: Retrieval<seq<Tactic>>)
    ensures !Truthy(stixId) ==> r == Retrieval(MissingParameter("stixId"), false, false)
    ensures Truthy(stixId) && !Truthy(modified) ==> r == Retrieval(MissingParameter("modified"), false, false)
    ensures r.listCalled <==> Truthy(stixId) && Truthy(modified) && technique.Found?
    ensures r.repositoryCalled <==> Truthy(stixId) && Truthy(modified)
    ensures r.repositoryCalled && technique.LookupFailed? ==> r.outcome == Failed(technique.error)
    ensures r.repositoryCalled && technique.NoDocument? ==> r.outcome == NullResult
    ensures r.listCalled && allTactics.FetchFailed? ==> r.outcome == ServiceError(allTactics.error)
    ensures !r.outcome.Page?
    ensures r.listCalled && allTactics.Fetched? ==> r.outcome == TypeError
  {
    if !Truthy(stixId) then Retrieval(MissingParameter("stixId"), false, false)
    else if !Truthy(modified) then Retrieval(MissingParameter("modified"), false, false)
    else match technique
      case LookupFailed(error) => Retrieval(Failed(error), true, false)
      case NoDocument => Retrieval(NullResult, true, false)
      case Found(_) => match allTactics
        case FetchFailed(error) => Retrieval(ServiceError(error), true, true)
        case Fetched(_) => Retrieval(TypeError, true, true)
  }

  /** `retrieveTacticsForTechnique` calling the static `tacticMatchesTechnique` and `getPageOfData`, as intended. */
  function RetrieveTacticsForTechniqueCorrected(
    stixId: Prop, modified: Prop, options: PageOptions,
    domainToKillChainMap: map<string, string>,
    technique: Lookup<Technique>, allTactics: Fetch<seq<Tactic>>)
    : (r: Retrieval<seq<Tactic>>)
    ensures !Truthy(stixId) ==> r == Retrieval(MissingParameter("stixId"), false, false)
    ensures Truthy(stixId) && !Truthy(modified) ==> r == Retrieval(MissingParameter("modified"), false, false)
    ensures r.listCalled <==> Truthy(stixId) && Truthy(modified) && technique.Found?
    ensures r.repositoryCalled <==> Truthy(stixId) && Truthy(modified)
    ensures r.repositoryCalled && technique.LookupFailed? ==> r.outcome == Failed(technique.error)
    ensures r.repositoryCalled && technique.NoDocument? ==> r.outcome == NullResult
    ensures r.listCalled && allTactics.FetchFailed? ==> r.outcome == ServiceError(allTactics.error)
    ensures r.outcome.Page? <==> r.listCalled && allTactics.Fetched?
    ensures r.outcome.Page? ==>
      r.outcome.data == GetPageOfData(Filter(MatchesTechnique(domainToKillChainMap, technique.value), allTactics.value), options)
  {
    if !Truthy(stixId) then Retrieval(MissingParameter("stixId"), false, false)
    else if !Truthy(modified) then Retrieval(MissingParameter("modified"), false, false)
    else match technique
      case LookupFailed(error) => Retrieval(Failed(error), true, false)
      case NoDocument => Retrieval(NullResult, true, false)
      case Found(t) => match allTactics
        case FetchFailed(error) => Retrieval(ServiceError(error), true, true)
        case Fetched(tactics) =>
          var filteredTactics := Filter(MatchesTechnique(domainToKillChainMap, t), tactics);
          Retrieval(Page(GetPageOfData(filteredTactics, options)), true, true)
  }

  /** A found technique in one tactic's phase: the source throws where a page with that tactic was meant. */
  lemma TypeErrorInsteadOfTactics()
    ensures var tactic := Tactic(["enterprise-attack"], Text("execution"));
      var technique := Technique([KillChainPhase(Text("mitre-attack"), Text("execution"))]);
      var config := map["enterprise-attack" := "mitre-attack"];
      && RetrieveTacticsForTechnique(Text("attack-pattern--1"), Text("2020-01-01"), PageOptions(0, 0), Found(technique), Fetched([tactic])).outcome
         == TypeError
      && RetrieveTacticsForTechniqueCorrected(Text("attack-pattern--1"), Text("2020-01-01"), PageOptions(0, 0), config, Found(technique), Fetched([tactic])).outcome
         == Page([tactic])
  {
    var tactic := Tactic(["enterprise-attack"], Text("execution"));
    var technique := Technique([KillChainPhase(Text("mitre-attack"), Text("execution"))]);
    var config := map["enterprise-attack" := "mitre-attack"];
    assert KillChainNames(config, tactic)[0] == Text("mitre-attack");
    assert TacticMatchesTechnique(config, technique, tactic) by {
      assert technique.killChainPhases[0].killChainName in KillChainNames(config, tactic);
    }
    assert Filter(MatchesTechnique(config, technique), [tactic]) == [tactic] by {
      assert [tactic][1..] == [];
    }
  }

  /** Any page of the intended result is a run of the tactics that match, in their original order. */
  lemma PagedTactics(domainToKillChainMap: map<string, string>, technique: Technique, tactics: seq<Tactic>, options: PageOptions)
    ensures var kept := Filter(MatchesTechnique(domainToKillChainMap, technique), tactics);
      var page := GetPageOfData(kept, options);
      && IsSubsequence(kept, tactics)
      && IsSubsequence(page, tactics)
      && (forall t :: t in page ==> t in tactics && TacticMatchesTechnique(domainToKillChainMap, technique, t))
      && (forall t :: t in tactics && TacticMatchesTechnique(domainToKillChainMap, technique, t) ==> t in kept)
  {
    var p := MatchesTechnique(domainToKillChainMap, technique);
    var kept := Filter(p, tactics);
    FilterIsSubsequence(p, tactics);
    forall t | t in tactics && TacticMatchesTechnique(domainToKillChainMap, technique, t)
      ensures t in kept
    {
      FilterKeeps(p, tactics, t);
    }
    var page := GetPageOfData(kept, options);
    forall t | t in page
      ensures t in kept
    {
      var i :| 0 <= i < |page| && page[i] == t;
      assert page[i] == kept[options.offset + i];
    }
    if options.offset < |kept| {
      var e := if options.limit == 0 then |kept| else Min(options.offset + options.limit, |kept|);
      assert page == kept[options.offset..e];
      SubsequenceSlice(kept, tactics, options.offset, e);
    }
  }
}
