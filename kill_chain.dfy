/**
 * What the tactics and techniques services share: the kill-chain view of tactics and
 * techniques, the paging of a result list, and the outcome of a retrieval.
 */
module KillChain {
  import opened Common

  datatype KillChainPhase = KillChainPhase(killChainName: Prop, phaseName: Prop)

  /** A tactic's `x_mitre_domains` and `x_mitre_shortname`. */
  datatype Tactic = Tactic(domains: seq<string>, shortname: Prop)

  /** A technique's `kill_chain_phases`. */
  datatype Technique = Technique(killChainPhases: seq<KillChainPhase>)

  /** `config.domainToKillChainMap[domain]`: `undefined` for a domain the configuration does not know. */
  function KillChainName(domainToKillChainMap: map<string, string>, domain: string): Prop {
    if domain in domainToKillChainMap then Text(domainToKillChainMap[domain]) else Undefined
  }

  /** The tactic's kill-chain names, one per domain, in order. */
  function KillChainNames(domainToKillChainMap: map<string, string>, tactic: Tactic): (r: seq<Prop>)
    ensures |r| == |tactic.domains|
    ensures forall i :: 0 <= i < |r| ==> r[i] == KillChainName(domainToKillChainMap, tactic.domains[i])
  {
    seq(|tactic.domains|, i requires 0 <= i < |tactic.domains| => KillChainName(domainToKillChainMap, tactic.domains[i]))
  }

  datatype PageOptions = PageOptions(offset: nat, limit: nat)

  /** `data.slice(start, end)` for non-negative positions: both are clamped to the length. */
  function Slice<T>(data: seq<T>, start: nat, end: nat): (r: seq<T>)
    ensures start <= end <= |data| ==> r == data[start..end]
    ensures |data| <= start ==> r == []
  {
    var s := if start <= |data| then start else |data|;
    var e := if end <= |data| then end else |data|;
    if s <= e then data[s..e] else []
  }

  /** `getPageOfData`: from `offset`, at most `limit` elements, and `limit = 0` means to the end. */
  function GetPageOfData<T>(data: seq<T>, options: PageOptions): (page: seq<T>)
    ensures options.offset >= |data| ==> page == []
    ensures options.offset < |data| && options.limit == 0 ==> page == data[options.offset..]
    ensures options.offset < |data| && options.limit > 0 ==>
      page == data[options.offset..Min(options.offset + options.limit, |data|)]
    ensures options.limit > 0 ==> |page| <= options.limit
  {
    var endPos := if options.limit == 0 then |data| else Min(options.offset + options.limit, |data|);
    Slice(data, options.offset, endPos)
  }

  function Min(a: int, b: int): int {
    if a <= b then a else b
  }

  /** Consecutive pages of the same size cover the data without gaps or overlaps. */
  lemma ConsecutivePages<T>(data: seq<T>, offset: nat, limit: nat)
    requires limit > 0 && offset + limit <= |data|
    ensures GetPageOfData(data, PageOptions(offset, limit)) + GetPageOfData(data, PageOptions(offset + limit, limit))
      == GetPageOfData(data, PageOptions(offset, 2 * limit))
  {
    var a, b := offset + limit, Min(offset + 2 * limit, |data|);
    assert data[offset..a] + data[a..b] == data[offset..b];
  }

  /** What the repository's one-version lookup gives back: the document, `null`, or a failure. */
  datatype Lookup<T> = Found(value: T) | NoDocument | LookupFailed(error: string)

  /** What a service's `retrieveAll` gives back. */
  datatype Fetch<T> = Fetched(value: T) | FetchFailed(error: string)

  datatype Outcome<T> =
    | MissingParameter(parameterName: string)
    | Failed(error: string)            // the repository's failure, passed on as it is
    | ServiceError(cause: string)      // the other service's failure, wrapped
    | NullResult                       // the document was not found
    | TypeError                        // a call on `undefined`
    | Page(data: T)

  /** An outcome and which of the two lookups were made on the way. */
  datatype Retrieval<T> = Retrieval(outcome: Outcome<T>, repositoryCalled: bool, listCalled: bool)
}
