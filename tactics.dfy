/** The tactics service: which techniques belong to a tactic, and their retrieval one page at a time. */
module TacticsService {
  import opened Common
  import opened KillChain

  /**
   * `techniqueMatchesTactic(tactic)(technique)`: some kill-chain phase of the technique has
   * the tactic's short name and one of the kill-chain names of the tactic's domains.
   */
  predicate TechniqueMatchesTactic(domainToKillChainMap: map<string, string>, tactic: Tactic, technique: Technique) {
    var tacticKillChainNames := KillChainNames(domainToKillChainMap, tactic);
    Any((phase: KillChainPhase) => phase.phaseName == tactic.shortname && phase.killChainName in tacticKillChainNames,
        technique.killChainPhases)
  }

  /** The predicate in terms of the domains themselves. */
  lemma TechniqueMatchesTacticIff(domainToKillChainMap: map<string, string>, tactic: Tactic, technique: Technique)
    ensures TechniqueMatchesTactic(domainToKillChainMap, tactic, technique)
      <==> exists p, d :: 0 <= p < |technique.killChainPhases| && 0 <= d < |tactic.domains|
             && technique.killChainPhases[p].phaseName == tactic.shortname
             && technique.killChainPhases[p].killChainName == KillChainName(domainToKillChainMap, tactic.domains[d])
  {
    var names := KillChainNames(domainToKillChainMap, tactic);
    if TechniqueMatchesTactic(domainToKillChainMap, tactic, technique) {
      var p :| 0 <= p < |technique.killChainPhases| && technique.killChainPhases[p].phaseName == tactic.shortname
        && technique.killChainPhases[p].killChainName in names;
      var d :| 0 <= d < |names| && names[d] == technique.killChainPhases[p].killChainName;
      assert technique.killChainPhases[p].killChainName == KillChainName(domainToKillChainMap, tactic.domains[d]);
    }
  }

  /** A domain the configuration does not map yields `undefined`, which matches a phase without a kill-chain name. */
  lemma UnmappedDomainMatchesNamelessPhase(domainToKillChainMap: map<string, string>, tactic: Tactic, technique: Technique, d: nat, p: nat)
    requires d < |tactic.domains| && tactic.domains[d] !in domainToKillChainMap
    requires p < |technique.killChainPhases| && technique.killChainPhases[p] == KillChainPhase(Undefined, tactic.shortname)
    ensures TechniqueMatchesTactic(domainToKillChainMap, tactic, technique)
  {
    TechniqueMatchesTacticIff(domainToKillChainMap, tactic, technique);
  }

  function MatchesTactic(domainToKillChainMap: map<string, string>, tactic: Tactic): Technique -> bool {
    (technique: Technique) => TechniqueMatchesTactic(domainToKillChainMap, tactic, technique)
  }

  /**
   * `retrieveTechniquesForTactic` as written: the filter is looked up as
   * `this.techniqueMatchesTactic`, but the method is static and `this` is the service
   * instance, so the lookup gives `undefined` and calling it throws.
   */
  function RetrieveTechniquesForTactic(
    stixId: Prop, modified: Prop, options: PageOptions,
    tactic: Lookup<Tactic>, allTechniques: Fetch<seq<Technique>>)
    : (r: Retrieval<seq<Technique>>)
    ensures !Truthy(stixId) ==> r == Retrieval(MissingParameter("stixId"), false, false)
    ensures Truthy(stixId) && !Truthy(modified) ==> r == Retrieval(MissingParameter("modified"), false, false)
    ensures r.listCalled <==> Truthy(stixId) && Truthy(modified) && tactic.Found?
    ensures r.repositoryCalled <==> Truthy(stixId) && Truthy(modified)
    ensures r.repositoryCalled && tactic.LookupFailed? ==> r.outcome == Failed(tactic.error)
    ensures r.repositoryCalled && tactic.NoDocument? ==> r.outcome == NullResult
    ensures r.listCalled && allTechniques.FetchFailed? ==> r.outcome == ServiceError(allTechniques.error)
    ensures !r.outcome.Page?
    ensures r.listCalled && allTechniques.Fetched? ==> r.outcome == TypeError
  {
    if !Truthy(stixId) then Retrieval(MissingParameter("stixId"), false, false)
    else if !Truthy(modified) then Retrieval(MissingParameter("modified"), false, false)
    else match tactic
      case LookupFailed(error) => Retrieval(Failed(error), true, false)
      case NoDocument => Retrieval(NullResult, true, false)
      case Found(_) => match allTechniques
        case FetchFailed(error) => Retrieval(ServiceError(error), true, true)
        case Fetched(_) => Retrieval(TypeError, true, true)
  }

  /** `retrieveTechniquesForTactic` calling the static `TacticsService.techniqueMatchesTactic`, as intended. */
  function RetrieveTechniquesForTacticCorrected(
    stixId: Prop, modified: Prop, options: PageOptions,
    domainToKillChainMap: map<string, string>,
    tactic: Lookup<Tactic>, allTechniques: Fetch<seq<Technique>>)
    : (r: Retrieval<seq<Technique>>)
    ensures !Truthy(stixId) ==> r == Retrieval(MissingParameter("stixId"), false, false)
    ensures Truthy(stixId) && !Truthy(modified) ==> r == Retrieval(MissingParameter("modified"), false, false)
    ensures r.listCalled <==> Truthy(stixId) && Truthy(modified) && tactic.Found?
    ensures r.repositoryCalled <==> Truthy(stixId) && Truthy(modified)
    ensures r.repositoryCalled && tactic.LookupFailed? ==> r.outcome == Failed(tactic.error)
    ensures r.repositoryCalled && tactic.NoDocument? ==> r.outcome == NullResult
    ensures r.listCalled && allTechniques.FetchFailed? ==> r.outcome == ServiceError(allTechniques.error)
    ensures r.outcome.Page? <==> r.listCalled && allTechniques.Fetched?
    ensures r.outcome.Page? ==>
      r.outcome.data == GetPageOfData(Filter(MatchesTactic(domainToKillChainMap, tactic.value), allTechniques.value), options)
  {
    if !Truthy(stixId) then Retrieval(MissingParameter("stixId"), false, false)
    else if !Truthy(modified) then Retrieval(MissingParameter("modified"), false, false)
    else match tactic
      case LookupFailed(error) => Retrieval(Failed(error), true, false)
      case NoDocument => Retrieval(NullResult, true, false)
      case Found(t) => match allTechniques
        case FetchFailed(error) => Retrieval(ServiceError(error), true, true)
        case Fetched(techniques) =>
          var filteredTechniques := Filter(MatchesTactic(domainToKillChainMap, t), techniques);
          Retrieval(Page(GetPageOfData(filteredTechniques, options)), true, true)
  }

  /** A tactic, found, with one technique in its phase: the source throws where a page of that technique was meant. */
  lemma TypeErrorInsteadOfPage()
    ensures var tactic := Tactic(["enterprise-attack"], Text("execution"));
      var technique := Technique([KillChainPhase(Text("mitre-attack"), Text("execution"))]);
      var config := map["enterprise-attack" := "mitre-attack"];
      && RetrieveTechniquesForTactic(Text("x-mitre-tactic--1"), Text("2020-01-01"), PageOptions(0, 0), Found(tactic), Fetched([technique])).outcome
         == TypeError
      && RetrieveTechniquesForTacticCorrected(Text("x-mitre-tactic--1"), Text("2020-01-01"), PageOptions(0, 0), config, Found(tactic), Fetched([technique])).outcome
         == Page([technique])
  {
    var tactic := Tactic(["enterprise-attack"], Text("execution"));
    var technique := Technique([KillChainPhase(Text("mitre-attack"), Text("execution"))]);
    var config := map["enterprise-attack" := "mitre-attack"];
    assert KillChainNames(config, tactic)[0] == Text("mitre-attack");
    assert TechniqueMatchesTactic(config, tactic, technique) by {
      assert technique.killChainPhases[0].killChainName in KillChainNames(config, tactic);
    }
    assert Filter(MatchesTactic(config, tactic), [technique]) == [technique] by {
      assert [technique][1..] == [];
    }
  }

  /** The whole filtered list (`limit = 0`, `offset = 0`) is the techniques of the tactic, in their original order. */
  lemma FilteredTechniques(domainToKillChainMap: map<string, string>, tactic: Tactic, techniques: seq<Technique>)
    ensures var page := GetPageOfData(Filter(MatchesTactic(domainToKillChainMap, tactic), techniques), PageOptions(0, 0));
      && IsSubsequence(page, techniques)
      && (forall t :: t in page ==> TechniqueMatchesTactic(domainToKillChainMap, tactic, t))
      && (forall t :: t in techniques && TechniqueMatchesTactic(domainToKillChainMap, tactic, t) ==> t in page)
  {
    var p := MatchesTactic(domainToKillChainMap, tactic);
    var kept := Filter(p, techniques);
    assert GetPageOfData(kept, PageOptions(0, 0)) == kept by {
      if |kept| > 0 {
        assert kept[0..] == kept;
      }
    }
    FilterIsSubsequence(p, techniques);
    forall t | t in techniques && TechniqueMatchesTactic(domainToKillChainMap, tactic, t)
      ensures t in kept
    {
      FilterKeeps(p, techniques, t);
    }
  }
}
