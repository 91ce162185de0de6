/** The user-accounts service: the effective role, the account as a STIX identity, list envelopes and `create`'s defaults. */
module UserAccounts {
  import opened Common

  /** The fields of a user account the service reads or sets. */
  datatype AccountRecord = AccountRecord(
    id: Prop, email: Prop, status: Prop, role: Prop, displayName: Prop, created: Prop, modified: Prop)

  /** The STIX identity object an account is presented as. */
  datatype Identity = Identity(
    identityType: string, specVersion: string, id: Prop, created: Prop, modified: Prop, name: Prop, identityClass: string)

  /** Pending and inactive accounts act with the role `none`. */
  predicate Deactivated(record: AccountRecord) {
    record.status == Text("pending") || record.status == Text("inactive")
  }

  /** The account after `addEffectiveRole`: its role forced to `none` when it is pending or inactive, otherwise as it was. */
  function WithEffectiveRole(record: AccountRecord): (r: AccountRecord)
    ensures Deactivated(record) ==> r == record.(role := Text("none"))
    ensures !Deactivated(record) ==> r == record
    ensures Deactivated(r) == Deactivated(record)
    ensures UserAccountAsIdentity(r) == UserAccountAsIdentity(record)
  {
    if Deactivated(record) then record.(role := Text("none")) else record
  }

  /** `userAccountAsIdentity`: an individual's identity, named by the display name, with the account's id and timestamps. */
  function UserAccountAsIdentity(record: AccountRecord): (identity: Identity)
    ensures identity.identityType == "identity" && identity.specVersion == "2.1" && identity.identityClass == "individual"
    ensures identity.name == record.displayName
    ensures identity.id == record.id && identity.created == record.created && identity.modified == record.modified
  {
    Identity("identity", "2.1", record.id, record.created, record.modified, record.displayName, "individual")
  }

  /** Applying the effective role twice is applying it once. */
  lemma {:induction false} EffectiveRoleIdempotent(record: AccountRecord)
    ensures WithEffectiveRole(WithEffectiveRole(record)) == WithEffectiveRole(record)
  {
    if Deactivated(record) {
      assert Deactivated(WithEffectiveRole(record));
    }
  }

  /** A user account document, updated in place. */
  class UserAccount {
    var id: Prop
    var email: Prop
    var status: Prop
    var role: Prop
    var displayName: Prop
    var created: Prop
    var modified: Prop
    var identity: Option<Identity>

    constructor (record: AccountRecord)
      ensures Record() == record && identity == None
    {
      id, email, status, role := record.id, record.email, record.status, record.role;
      displayName, created, modified := record.displayName, record.created, record.modified;
      identity := None;
    }

    function Record(): AccountRecord
      reads this
    {
      AccountRecord(id, email, status, role, displayName, created, modified)
    }
  }

  /** `addEffectiveRole`, in place; a null account is left alone. */
  method AddEffectiveRole(userAccount: UserAccount?)
    modifies userAccount
    ensures userAccount != null ==> userAccount.Record() == WithEffectiveRole(old(userAccount.Record()))
    ensures userAccount != null ==> userAccount.identity == old(userAccount.identity)
  {
    if userAccount != null && (userAccount.status == Text("pending") || userAccount.status == Text("inactive")) {
      userAccount.role := Text("none");
    }
  }

  /** The options `retrieveAll` and `retrieveById` read. */
  datatype ListOptions = ListOptions(includeStixIdentity: bool, includePagination: bool, offset: nat, limit: nat)

  datatype Pagination = Pagination(total: nat, offset: nat, limit: nat)

  /** A list of accounts, bare or inside a pagination envelope; or the repository's error, passed on. */
  datatype ListResult =
    | Paginated(pagination: Pagination, data: seq<UserAccount>)
    | Plain(data: seq<UserAccount>)
    | ListFailed(error: string)

  /** The count facet: its one entry's `totalCount`, or 0 when the facet is empty. */
  function DerivedTotalCount(totalCount: seq<nat>): (total: nat)
    ensures |totalCount| > 0 ==> total == totalCount[0]
    ensures |totalCount| == 0 ==> total == 0
  {
    if |totalCount| > 0 then totalCount[0] else 0
  }

  /** What the loop of `retrieveAll` does to one account: its effective role, and its identity when asked for. */
  method DecorateAccount(userAccount: UserAccount, includeStixIdentity: bool)
    modifies userAccount
    ensures userAccount.Record() == WithEffectiveRole(old(userAccount.Record()))
    ensures userAccount.identity
      == if includeStixIdentity then Some(UserAccountAsIdentity(old(userAccount.Record()))) else old(userAccount.identity)
  {
    AddEffectiveRole(userAccount);
    if includeStixIdentity {
      userAccount.identity := Some(UserAccountAsIdentity(userAccount.Record()));
    }
  }

  /** Every account of the list has been decorated, once or more: the state `retrieveAll` leaves. */
  ghost predicate Decorated(userAccount: UserAccount, includeStixIdentity: bool, before: AccountRecord, identityBefore: Option<Identity>)
    reads userAccount
  {
    && userAccount.Record() == WithEffectiveRole(before)
    && userAccount.identity == if includeStixIdentity then Some(UserAccountAsIdentity(before)) else identityBefore
  }

  /**
   * `retrieveAll` from the repository's page of accounts and its count facet: every account
   * decorated in place, returned in the envelope when pagination is asked for.
   */
  method RetrieveAll(options: ListOptions, userAccounts: seq<UserAccount>, totalCount: seq<nat>, repositoryFailure: Option<string>)
    returns (result: ListResult)
    modifies set a | a in userAccounts
    ensures repositoryFailure.Some? ==> result == ListFailed(repositoryFailure.value)
    ensures repositoryFailure.Some? ==> forall a :: a in userAccounts ==> a.Record() == old(a.Record()) && a.identity == old(a.identity)
    ensures repositoryFailure.None? ==>
      result == if options.includePagination
        then Paginated(Pagination(DerivedTotalCount(totalCount), options.offset, options.limit), userAccounts)
        else Plain(userAccounts)
    ensures repositoryFailure.None? ==> forall a :: a in userAccounts ==>
      Decorated(a, options.includeStixIdentity, old(a.Record()), old(a.identity))
  {
    if repositoryFailure.Some? {
      return ListFailed(repositoryFailure.value);
    }
    for i := 0 to |userAccounts|
      invariant forall a :: a in userAccounts[..i] ==> Decorated(a, options.includeStixIdentity, old(a.Record()), old(a.identity))
      invariant forall a :: a in userAccounts && a !in userAccounts[..i] ==> a.Record() == old(a.Record()) && a.identity == old(a.identity)
    {
      var userAccount := userAccounts[i];
      EffectiveRoleIdempotent(old(userAccount.Record()));
      DecorateAccount(userAccount, options.includeStixIdentity);
      assert userAccounts[..i + 1] == userAccounts[..i] + [userAccount];
    }
    assert userAccounts[..|userAccounts|] == userAccounts;
    if options.includePagination {
      var derivedTotalCount := 0;
      if |totalCount| > 0 {
        derivedTotalCount := totalCount[0];
      }
      result := Paginated(Pagination(derivedTotalCount, options.offset, options.limit), userAccounts);
    } else {
      result := Plain(userAccounts);
    }
  }

  datatype AccountError = MissingParameter(parameterName: string) | NotFound(message: string) | RepositoryError(error: string)

  datatype AccountReply = Account(userAccount: UserAccount) | AccountFailed(error: AccountError)

  /** `options & options.includeStixIdentity` as written: `undefined` options throw, and a plain object converts to 0. */
  function IdentityRequestedAsWritten(options: Option<ListOptions>): (r: Option<bool>)
    ensures options.None? ==> r.None?
    ensures options.Some? ==> r == Some(false)
  {
    match options
      case None => None   // reading `includeStixIdentity` of `undefined` throws
      case Some(o) =>
        // An object's number value is NaN, and NaN becomes 0 as a 32-bit integer.
        var objectAsInt32: bv32 := 0;
        var flagAsInt32: bv32 := if o.includeStixIdentity then 1 else 0;
        Some(objectAsInt32 & flagAsInt32 != 0)
  }

  /** The evident intent, `options && options.includeStixIdentity`. */
  function IdentityRequested(options: Option<ListOptions>): (r: bool)
    ensures r <==> options.Some? && options.value.includeStixIdentity
  {
    options.Some? && options.value.includeStixIdentity
  }

  /** Asking for the identity: as written it is never attached, as intended it is. */
  lemma BitwiseAndDropsIdentity()
    ensures var options := Some(ListOptions(true, false, 0, 0));
      IdentityRequestedAsWritten(options) == Some(false) && IdentityRequested(options)
  {
  }

  /** `retrieveById`: the id check, the lookup, then the effective role and, when asked for, the identity. */
  method RetrieveById(userAccountId: Prop, options: Option<ListOptions>, found: UserAccount?, repositoryFailure: Option<string>)
    returns (r: AccountReply)
    modifies found
    ensures !Truthy(userAccountId) ==> r == AccountFailed(MissingParameter("stixId"))
    ensures Truthy(userAccountId) && repositoryFailure.Some? ==> r == AccountFailed(RepositoryError(repositoryFailure.value))
    ensures Truthy(userAccountId) && repositoryFailure.None? && found == null ==>
      r == AccountFailed(NotFound("UserAccount not found"))
    ensures r.Account? <==> Truthy(userAccountId) && repositoryFailure.None? && found != null
    ensures r.Account? ==> (r.userAccount == found
      && Decorated(found, IdentityRequested(options), old(found.Record()), old(found.identity)))
    ensures !r.Account? && found != null ==> found.Record() == old(found.Record()) && found.identity == old(found.identity)
  {
    if !Truthy(userAccountId) {
      return AccountFailed(MissingParameter("stixId"));
    }
    if repositoryFailure.Some? {
      return AccountFailed(RepositoryError(repositoryFailure.value));
    }
    if found == null {
      return AccountFailed(NotFound("UserAccount not found"));
    }
    DecorateAccount(found, IdentityRequested(options));
    r := Account(found);
  }

  /** What `create` can end in: the saved account, a duplicate email, or the repository's error from the lookup or the save. */
  datatype CreateOutcome = Created(account: AccountRecord) | DuplicateEmail | LookupFailed(error: string) | SaveFailed(error: string)

  /** What `findByEmail` gives: an account with that email, none, or a rejection. */
  datatype EmailLookup = EmailTaken | EmailFree | EmailLookupFailed(error: string)

  /** The outcome, and the document handed to the repository's `save`, if it got that far. */
  datatype CreateResult = CreateResult(outcome: CreateOutcome, saved: Option<AccountRecord>)

  /**
   * The document `create` builds: the data with an id, `created` and `modified` filled in where
   * they are missing. The clock is read once for `created` (`now`) and once more for `modified`
   * (`later`), and the two reads need not agree.
   */
  function NewUserAccount(data: AccountRecord, newUuid: string, now: string, later: string): (r: AccountRecord)
    ensures r.email == data.email && r.status == data.status && r.role == data.role && r.displayName == data.displayName
    ensures Truthy(data.id) ==> r.id == data.id
    ensures !Truthy(data.id) ==> r.id == Text("identity--" + newUuid)
    ensures Truthy(data.created) ==> r.created == data.created
    ensures !Truthy(data.created) ==> r.created == Text(now)
    ensures Truthy(data.modified) ==> r.modified == data.modified
    ensures !Truthy(data.modified) && Truthy(data.created) ==> r.modified == data.created
    ensures !Truthy(data.modified) && !Truthy(data.created) ==> r.modified == Text(later)
    ensures Truthy(r.id)
  {
    data.(id := JsOr(data.id, Text("identity--" + newUuid)),
          created := JsOr(data.created, Text(now)),
          modified := JsOr(data.modified, JsOr(data.created, Text(later))))
  }

  /** With neither timestamp given, two different clock readings leave `modified` apart from `created`. */
  lemma TimestampsFromTwoReadings(data: AccountRecord, newUuid: string, now: string, later: string)
    requires !Truthy(data.created) && !Truthy(data.modified) && now != later
    ensures NewUserAccount(data, newUuid, now, later).created != NewUserAccount(data, newUuid, now, later).modified
  {
  }

  /**
   * `create`: refuse an email that another account has (looked up only when there is an email;
   * a rejected lookup ends `create` with its error), otherwise save the new document and give
   * back the saved account with its effective role; a failed save is rethrown as it is.
   */
  function Create(data: AccountRecord, emailLookup: EmailLookup, newUuid: string, now: string, later: string,
                  saveFailure: Option<string>)
    : (r: CreateResult)
    ensures r.outcome == DuplicateEmail <==> Truthy(data.email) && emailLookup == EmailTaken
    ensures r.outcome.LookupFailed? <==> Truthy(data.email) && emailLookup.EmailLookupFailed?
    ensures r.outcome.LookupFailed? ==> r.outcome.error == emailLookup.error
    ensures r.saved.Some? <==> !Truthy(data.email) || emailLookup == EmailFree
    ensures r.saved.Some? ==> r.saved.value == NewUserAccount(data, newUuid, now, later)
    ensures r.saved.Some? && saveFailure.Some? ==> r.outcome == SaveFailed(saveFailure.value)
    ensures r.saved.Some? && saveFailure.None? ==> r.outcome == Created(WithEffectiveRole(NewUserAccount(data, newUuid, now, later)))
  {
    if Truthy(data.email) && emailLookup == EmailTaken then CreateResult(DuplicateEmail, None)
    else if Truthy(data.email) && emailLookup.EmailLookupFailed? then CreateResult(LookupFailed(emailLookup.error), None)
    else
      var userAccount := NewUserAccount(data, newUuid, now, later);
      match saveFailure
        case Some(error) => CreateResult(SaveFailed(error), Some(userAccount))
        case None => CreateResult(Created(WithEffectiveRole(userAccount)), Some(userAccount))
  }

  /** A created account keeps given timestamps, and one that gives only `created` is last modified then too. */
  lemma CreatedTimestamps(data: AccountRecord, newUuid: string, now: string, later: string)
    requires !Truthy(data.email)
    ensures var r := Create(data, EmailTaken, newUuid, now, later, None);
      && r.outcome.Created?
      && Truthy(r.outcome.account.id)
      && (Truthy(data.created) && !Truthy(data.modified) ==> r.outcome.account.modified == data.created)
  {
  }

  /**
   * `exports.addEffectiveRole = this.addEffectiveRole` as written: at module level `this` is the
   * exports object, which has no `addEffectiveRole` yet, so the export is `undefined`.
   */
  function ExportedAddEffectiveRoleAsWritten(): (exported: Option<AccountRecord -> AccountRecord>)
    ensures exported.None?
  {
    None
  }

  /** The evident intent: the module's own `addEffectiveRole`. */
  function ExportedAddEffectiveRole(): (exported: Option<AccountRecord -> AccountRecord>)
    ensures exported.Some? && forall record :: exported.value(record) == WithEffectiveRole(record)
  {
    Some(WithEffectiveRole)
  }

  /**
   * A caller outside the module, as the teams service is: it destructures `addEffectiveRole`
   * from this module's exports (app/services/teams-service.js:7) and calls it on every user
   * account of a team (app/services/teams-service.js:94). Calling the export as written throws,
   * calling it as intended applies the role.
   */
  function CallExport(exported: Option<AccountRecord -> AccountRecord>, record: AccountRecord): (r: Option<AccountRecord>)
    ensures exported.None? ==> r.None?
    ensures exported.Some? ==> r == Some(exported.value(record))
  {
    if exported.None? then None else Some(exported.value(record))
  }

  lemma ExportIsUndefined(record: AccountRecord)
    ensures CallExport(ExportedAddEffectiveRoleAsWritten(), record).None?
    ensures CallExport(ExportedAddEffectiveRole(), record) == Some(WithEffectiveRole(record))
  {
  }
}
