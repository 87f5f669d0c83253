// `quota-set`: choosing the resource and setting the limit of every named
// user together.
module AdminQuotaSet {
  import opened Wrappers
  import opened Text
  import opened AdminCli
  import opened AdminTokens


  /** A quota resource: its id, its type's name and its own name. */
  datatype Resource = Resource(id: nat, typeName: string, name: string)

  /** A user's limit and usage of one resource. */
  datatype UserQuota = UserQuota(limit: int, used: int)

  /** The resource `quota-set` settles on, or why there is none. */
  datatype Choice = Chosen(resource: Resource) | NoResource | Ambiguous | LookupFailed

  /** The columns of the resource table `quota-set` filters by: `name` and `type_`. */
  datatype Column = NameColumn | TypeColumn

  function ColumnOf(r: Resource, column: Column): string
  {
    match column
    case NameColumn => r.name
    case TypeColumn => r.typeName
  }

  /** `Resource.query.filter_by(<column>=value)`: the resources holding the value in the column, in table order. */
  function Having(resources: seq<Resource>, column: Column, value: string): (r: seq<Resource>)
    ensures forall x :: x in r <==> x in resources && ColumnOf(x, column) == value
  {
    if resources == [] then []
    else if ColumnOf(resources[0], column) == value then [resources[0]] + Having(resources[1..], column, value)
    else Having(resources[1..], column, value)
  }

  /**
   * The resource selection of `quota-set` as written: for a known type with no
   * resource, `resources[0]` raises `IndexError`, which the command's
   * `except Exception` reports.
   */
  function SelectResourceAsWritten(resources: seq<Resource>, validTypes: seq<string>,
                                   resourceType: Option<string>, resourceName: Option<string>): Choice
  {
    if TruthyStr(resourceName) then
      var named := Having(resources, NameColumn, resourceName.value);
      if named == [] then NoResource else if |named| == 1 then Chosen(named[0]) else LookupFailed
    else if resourceType.Some? && resourceType.value in validTypes then
      var typed := Having(resources, TypeColumn, resourceType.value);
      if |typed| > 1 then Ambiguous else if typed == [] then LookupFailed else Chosen(typed[0])
    else NoResource
  }

  /** The resource selection as intended: a known type without a resource is a resource that does not exist. */
  function SelectResource(resources: seq<Resource>, validTypes: seq<string>,
                          resourceType: Option<string>, resourceName: Option<string>): (c: Choice)
    ensures c.Chosen? ==> c.resource in resources
    ensures c.Chosen? && TruthyStr(resourceName) ==> c.resource.name == resourceName.value
    ensures c.Chosen? && !TruthyStr(resourceName) ==> resourceType.Some? && c.resource.typeName == resourceType.value
    ensures c.Ambiguous? ==> !TruthyStr(resourceName) && resourceType.Some? && |Having(resources, TypeColumn, resourceType.value)| > 1
    ensures c.LookupFailed? ==> TruthyStr(resourceName) && |Having(resources, NameColumn, resourceName.value)| > 1
  {
    if TruthyStr(resourceName) then
      var named := Having(resources, NameColumn, resourceName.value);
      if named == [] then NoResource else if |named| == 1 then (assert named[0] in named; Chosen(named[0])) else LookupFailed
    else if resourceType.Some? && resourceType.value in validTypes then
      var typed := Having(resources, TypeColumn, resourceType.value);
      if |typed| > 1 then Ambiguous else if typed == [] then NoResource else (assert typed[0] in typed; Chosen(typed[0]))
    else NoResource
  }

  /** `--resource-name` takes priority: given one, `--resource` plays no part. */
  lemma NameOverridesType(resources: seq<Resource>, validTypes: seq<string>, t1: Option<string>, t2: Option<string>, name: string)
    requires name != ""
    ensures SelectResource(resources, validTypes, t1, Some(name)) == SelectResource(resources, validTypes, t2, Some(name))
  {
  }

  /**
   * What the intended selection settles on: with a name, the one resource of
   * that name, none, or a failed `one_or_none`; with a known type and no
   * name, the one resource of the type, none, or an ambiguity; otherwise none.
   */
  lemma SelectResourceOutcomes(resources: seq<Resource>, validTypes: seq<string>,
                               resourceType: Option<string>, resourceName: Option<string>)
    ensures var c := SelectResource(resources, validTypes, resourceType, resourceName);
      && (TruthyStr(resourceName) ==>
            var named := Having(resources, NameColumn, resourceName.value);
            && (|named| == 1 ==> c == Chosen(named[0]))
            && (named == [] ==> c == NoResource)
            && (|named| > 1 ==> c == LookupFailed))
      && (!TruthyStr(resourceName) && resourceType.Some? && resourceType.value in validTypes ==>
            var typed := Having(resources, TypeColumn, resourceType.value);
            && (|typed| == 1 ==> c == Chosen(typed[0]))
            && (typed == [] ==> c == NoResource)
            && (|typed| > 1 ==> c == Ambiguous))
      && (!TruthyStr(resourceName) && !(resourceType.Some? && resourceType.value in validTypes) ==> c == NoResource)
  {
  }

  /** The two selections differ only for a known type that has no resource. */
  lemma SelectionsAgreeElsewhere(resources: seq<Resource>, validTypes: seq<string>, resourceType: Option<string>, resourceName: Option<string>)
    requires TruthyStr(resourceName) || resourceType.None? || resourceType.value !in validTypes || Having(resources, TypeColumn, resourceType.value) != []
    ensures SelectResource(resources, validTypes, resourceType, resourceName) == SelectResourceAsWritten(resources, validTypes, resourceType, resourceName)
  {
  }

  function ResourceLabel(r: Resource): string
  {
    r.typeName + OpenParen + r.name + ")"
  }

  function ResourceLabels(resources: seq<Resource>): seq<string>
  {
    seq(|resources|, k requires 0 <= k < |resources| => ResourceLabel(resources[k]))
  }

  /** The message for a missing resource, listing the ones that exist. */
  function MissingResourceMessage(resources: seq<Resource>, resourceType: Option<string>, resourceName: Option<string>): string
  {
    (if TruthyStr(resourceName) || TruthyStr(resourceType) then
       ResourcePrefix + (if TruthyStr(resourceName) then resourceName.value else resourceType.value) + ResourceMissing
     else NoResourceGiven)
    + AvailablePrefix + JoinWith(ResourceLabels(resources), ", ") + "."
  }

  const ResourcePrefix := "ERROR: Provided resource `"
  const ResourceMissing := "` does not exist. "
  const NoResourceGiven := "ERROR: Please provide a resource. "
  const AvailablePrefix := "Available resources are: "
  const AmbiguousPrefix := "ERROR: There are more than one `"
  const AmbiguousSuffix := "` resource. Please provide resource name with `--resource-name` option to specify the exact resource."
  const ProvidedUserPrefix := "ERROR: Provided user "

  function AmbiguousMessage(typeName: string): string
  {
    AmbiguousPrefix + typeName + AmbiguousSuffix
  }

  function MissingUserMessage(email: string): string
  {
    ProvidedUserPrefix + email + DoesNotExist
  }

  /** What one e-mail address comes to in the loop of `quota-set`: the user's id, or how the command ends. */
  function EmailStep(accounts: seq<Account>, resources: seq<Resource>, choice: Choice,
                     resourceType: Option<string>, resourceName: Option<string>, email: string)
    : (r: Result<string, CommandResult>)
    ensures r.Ok? ==> choice.Chosen?
    ensures r.Ok? ==> var found := FindAccount(accounts, None, Some(email), false);
      found.Ok? && found.value.Some? && r.value == accounts[found.value.value].id
    ensures r.Err? ==> !r.error.Succeeded?
  {
    match FindAccount(accounts, None, Some(email), false)
    case Err(_) => Err(Reported(QuotaNotSet))
    case Ok(found) =>
      if choice.Ambiguous? then
        Err(Exited(1, AmbiguousMessage(resourceType.GetOr("None"))))
      else if choice.LookupFailed? then Err(Reported(QuotaNotSet))
      else if found.None? then Err(Exited(1, MissingUserMessage(email)))
      else if choice.NoResource? then Err(Exited(1, MissingResourceMessage(resources, resourceType, resourceName)))
      else Ok(accounts[found.value].id)
  }

  /**
   * How one address ends: the lookup of its user is made first and a failing
   * lookup is reported; an ambiguous type exits, a failed name lookup is
   * reported, a missing user exits, then a missing resource exits; otherwise
   * the user's limit is set.
   */
  lemma EmailStepOutcomes(accounts: seq<Account>, resources: seq<Resource>, choice: Choice,
                          resourceType: Option<string>, resourceName: Option<string>, email: string)
    ensures var r := EmailStep(accounts, resources, choice, resourceType, resourceName, email);
      var found := FindAccount(accounts, None, Some(email), false);
      && (r.Ok? <==> found.Ok? && found.value.Some? && choice.Chosen?)
      && (found.Err? ==> r == Err(Reported(QuotaNotSet)))
      && (found.Ok? && choice.Ambiguous? ==> r == Err(Exited(1, AmbiguousMessage(resourceType.GetOr("None")))))
      && (found.Ok? && choice.LookupFailed? ==> r == Err(Reported(QuotaNotSet)))
      && (found == Ok(None) && (choice.Chosen? || choice.NoResource?) ==> r == Err(Exited(1, MissingUserMessage(email))))
      && (found.Ok? && found.value.Some? && choice.NoResource? ==>
            r == Err(Exited(1, MissingResourceMessage(resources, resourceType, resourceName))))
  {
  }

  /** The ids of the users of all the addresses, or the outcome of the first one that stops the command. */
  function ResolveAll(accounts: seq<Account>, resources: seq<Resource>, choice: Choice,
                      resourceType: Option<string>, resourceName: Option<string>, emails: seq<string>)
    : (r: Result<seq<string>, CommandResult>)
    ensures r.Ok? ==> |r.value| == |emails|
    ensures r.Err? ==> !r.error.Succeeded?
  {
    if emails == [] then Ok([])
    else
      var init := ResolveAll(accounts, resources, choice, resourceType, resourceName, emails[..|emails| - 1]);
      if init.Err? then init
      else match EmailStep(accounts, resources, choice, resourceType, resourceName, emails[|emails| - 1])
        case Err(e) => Err(e)
        case Ok(id) => Ok(init.value + [id])
  }

  /** The `j`-th id is the one the `j`-th address comes to: the id of that address's user. */
  lemma {:induction false} ResolveAllIds(accounts: seq<Account>, resources: seq<Resource>, choice: Choice,
                                         resourceType: Option<string>, resourceName: Option<string>, emails: seq<string>)
    ensures var r := ResolveAll(accounts, resources, choice, resourceType, resourceName, emails);
      r.Ok? ==> forall j :: 0 <= j < |emails| ==> EmailStep(accounts, resources, choice, resourceType, resourceName, emails[j]) == Ok(r.value[j])
  {
    if emails != [] {
      var init := emails[..|emails| - 1];
      ResolveAllIds(accounts, resources, choice, resourceType, resourceName, init);
      var r := ResolveAll(accounts, resources, choice, resourceType, resourceName, emails);
      if r.Ok? {
        var before := ResolveAll(accounts, resources, choice, resourceType, resourceName, init);
        assert before.Ok? && r.value == before.value + [r.value[|emails| - 1]];
        forall j | 0 <= j < |emails| - 1
          ensures EmailStep(accounts, resources, choice, resourceType, resourceName, emails[j]) == Ok(r.value[j])
        {
          assert init[j] == emails[j];
          assert r.value[j] == before.value[j];
        }
      }
    }
  }

  /** The addresses all come to a user exactly when the command gets through them all. */
  lemma {:induction false} ResolveAllOkIff(accounts: seq<Account>, resources: seq<Resource>, choice: Choice,
                                           resourceType: Option<string>, resourceName: Option<string>, emails: seq<string>)
    ensures ResolveAll(accounts, resources, choice, resourceType, resourceName, emails).Ok?
        <==> forall j :: 0 <= j < |emails| ==> EmailStep(accounts, resources, choice, resourceType, resourceName, emails[j]).Ok?
  {
    if emails != [] {
      var init := emails[..|emails| - 1];
      ResolveAllOkIff(accounts, resources, choice, resourceType, resourceName, init);
      assert forall j :: 0 <= j < |init| ==> init[j] == emails[j];
    }
  }

  /** Address `n` stops the command with `e`, and the addresses before it all come to a user. */
  predicate FirstStop(accounts: seq<Account>, resources: seq<Resource>, choice: Choice,
                      resourceType: Option<string>, resourceName: Option<string>, emails: seq<string>,
                      n: nat, e: CommandResult)
  {
    && n < |emails|
    && EmailStep(accounts, resources, choice, resourceType, resourceName, emails[n]) == Err(e)
    && forall j :: 0 <= j < n ==> EmailStep(accounts, resources, choice, resourceType, resourceName, emails[j]).Ok?
  }

  lemma FirstStopPrefix(accounts: seq<Account>, resources: seq<Resource>, choice: Choice,
                        resourceType: Option<string>, resourceName: Option<string>, emails: seq<string>,
                        n: nat, e: CommandResult)
    requires emails != []
    requires FirstStop(accounts, resources, choice, resourceType, resourceName, emails[..|emails| - 1], n, e)
    ensures FirstStop(accounts, resources, choice, resourceType, resourceName, emails, n, e)
  {
    var init := emails[..|emails| - 1];
    assert forall j :: 0 <= j <= n ==> init[j] == emails[j];
  }

  /** A command that stops, stops with the outcome of the first address that does not come to a user. */
  lemma {:induction false} ResolveAllFirstError(accounts: seq<Account>, resources: seq<Resource>, choice: Choice,
                                                resourceType: Option<string>, resourceName: Option<string>, emails: seq<string>)
    ensures var r := ResolveAll(accounts, resources, choice, resourceType, resourceName, emails);
      r.Err? ==> exists n :: FirstStop(accounts, resources, choice, resourceType, resourceName, emails, n, r.error)
  {
    if emails != [] {
      var init := emails[..|emails| - 1];
      var before := ResolveAll(accounts, resources, choice, resourceType, resourceName, init);
      if before.Err? {
        ResolveAllFirstError(accounts, resources, choice, resourceType, resourceName, init);
        var n :| FirstStop(accounts, resources, choice, resourceType, resourceName, init, n, before.error);
        FirstStopPrefix(accounts, resources, choice, resourceType, resourceName, emails, n, before.error);
      } else {
        var r := ResolveAll(accounts, resources, choice, resourceType, resourceName, emails);
        if r.Err? {
          ResolveAllOkIff(accounts, resources, choice, resourceType, resourceName, init);
          assert forall j :: 0 <= j < |init| ==> init[j] == emails[j];
          assert FirstStop(accounts, resources, choice, resourceType, resourceName, emails, |emails| - 1, r.error);
        }
      }
    }
  }

  /**
   * Once every address comes to a user, setting the limits gives each
   * address's user the new limit for the chosen resource.
   */
  lemma NamedUsersGetLimit(accounts: seq<Account>, resources: seq<Resource>, choice: Choice,
                           resourceType: Option<string>, resourceName: Option<string>, emails: seq<string>,
                           m: map<(string, nat), UserQuota>, limit: int, j: nat)
    requires ResolveAll(accounts, resources, choice, resourceType, resourceName, emails).Ok? && j < |emails|
    ensures var ids := ResolveAll(accounts, resources, choice, resourceType, resourceName, emails).value;
      var found := FindAccount(accounts, None, Some(emails[j]), false);
      && choice.Chosen? && found.Ok? && found.value.Some?
      && var key := (accounts[found.value.value].id, choice.resource.id);
      && key in SetLimits(m, ids, choice.resource.id, limit)
      && SetLimits(m, ids, choice.resource.id, limit)[key] == UserQuota(limit, if key in m then m[key].used else 0)
  {
    var ids := ResolveAll(accounts, resources, choice, resourceType, resourceName, emails).value;
    ResolveAllIds(accounts, resources, choice, resourceType, resourceName, emails);
    assert EmailStep(accounts, resources, choice, resourceType, resourceName, emails[j]) == Ok(ids[j]);
    assert ids[j] in ids;
    SetLimitsNamed(m, ids, choice.resource.id, limit, ids[j]);
  }

  /** One user's limit set: overwritten where the user has the resource, created with nothing used otherwise. */
  function SetOne(m: map<(string, nat), UserQuota>, userId: string, resourceId: nat, limit: int): map<(string, nat), UserQuota>
  {
    if (userId, resourceId) in m then m[(userId, resourceId) := m[(userId, resourceId)].(limit := limit)]
    else m[(userId, resourceId) := UserQuota(limit, 0)]
  }

  function SetLimits(m: map<(string, nat), UserQuota>, userIds: seq<string>, resourceId: nat, limit: int): map<(string, nat), UserQuota>
  {
    if userIds == [] then m else SetOne(SetLimits(m, userIds[..|userIds| - 1], resourceId, limit), userIds[|userIds| - 1], resourceId, limit)
  }

  /**
   * Setting the limits: every named user gets the new limit for the resource,
   * keeping what they used or starting from 0; every other entry stays.
   */
  lemma SetLimitsEffect(m: map<(string, nat), UserQuota>, userIds: seq<string>, resourceId: nat, limit: int)
    ensures var r := SetLimits(m, userIds, resourceId, limit);
      && r.Keys == m.Keys + (set u | u in userIds :: (u, resourceId))
      && (forall u :: u in userIds ==> r[(u, resourceId)] == UserQuota(limit, if (u, resourceId) in m then m[(u, resourceId)].used else 0))
      && (forall key :: key in m && (key.1 != resourceId || key.0 !in userIds) ==> r[key] == m[key])
  {
    SetLimitsKeys(m, userIds, resourceId, limit);
    forall u | u in userIds
      ensures SetLimits(m, userIds, resourceId, limit)[(u, resourceId)]
              == UserQuota(limit, if (u, resourceId) in m then m[(u, resourceId)].used else 0)
    {
      SetLimitsNamed(m, userIds, resourceId, limit, u);
    }
    forall key | key in m && (key.1 != resourceId || key.0 !in userIds)
      ensures SetLimits(m, userIds, resourceId, limit)[key] == m[key]
    {
      SetLimitsOthers(m, userIds, resourceId, limit, key);
    }
  }

  lemma {:induction false} SetLimitsKeys(m: map<(string, nat), UserQuota>, userIds: seq<string>, resourceId: nat, limit: int)
    ensures SetLimits(m, userIds, resourceId, limit).Keys == m.Keys + (set u | u in userIds :: (u, resourceId))
  {
    if userIds != [] {
      var init, last := userIds[..|userIds| - 1], userIds[|userIds| - 1];
      SetLimitsKeys(m, init, resourceId, limit);
      SetOneEffect(SetLimits(m, init, resourceId, limit), last, resourceId, limit);
      assert userIds == init + [last];
      KeysOfSnoc(init, last, resourceId);
    }
  }

  lemma {:induction false} SetLimitsNamed(m: map<(string, nat), UserQuota>, userIds: seq<string>, resourceId: nat, limit: int, u: string)
    requires u in userIds
    ensures var r := SetLimits(m, userIds, resourceId, limit);
      (u, resourceId) in r && r[(u, resourceId)] == UserQuota(limit, if (u, resourceId) in m then m[(u, resourceId)].used else 0)
  {
    var init, last := userIds[..|userIds| - 1], userIds[|userIds| - 1];
    var mid := SetLimits(m, init, resourceId, limit);
    SetOneEffect(mid, last, resourceId, limit);
    if u != last {
      assert u in init by {
        assert userIds == init + [last];
      }
      SetLimitsNamed(m, init, resourceId, limit, u);
    } else if u in init {
      SetLimitsNamed(m, init, resourceId, limit, u);
    } else {
      if (u, resourceId) in m {
        SetLimitsOthers(m, init, resourceId, limit, (u, resourceId));
      }
      SetLimitsKeys(m, init, resourceId, limit);
    }
  }

  lemma {:induction false} SetLimitsOthers(m: map<(string, nat), UserQuota>, userIds: seq<string>, resourceId: nat, limit: int,
                                           key: (string, nat))
    requires key in m && (key.1 != resourceId || key.0 !in userIds)
    ensures var r := SetLimits(m, userIds, resourceId, limit);
      key in r && r[key] == m[key]
  {
    if userIds != [] {
      var init, last := userIds[..|userIds| - 1], userIds[|userIds| - 1];
      assert key.0 !in init ==> key.0 !in userIds || key.0 == last;
      SetLimitsOthers(m, init, resourceId, limit, key);
      SetOneEffect(SetLimits(m, init, resourceId, limit), last, resourceId, limit);
    }
  }

  /** One limit set: the named entry gets the limit and keeps what it used, or 0; nothing else changes. */
  lemma SetOneEffect(m: map<(string, nat), UserQuota>, userId: string, resourceId: nat, limit: int)
    ensures var r := SetOne(m, userId, resourceId, limit);
      && r.Keys == m.Keys + {(userId, resourceId)}
      && r[(userId, resourceId)] == UserQuota(limit, if (userId, resourceId) in m then m[(userId, resourceId)].used else 0)
      && (forall key :: key in m && key != (userId, resourceId) ==> r[key] == m[key])
  {
  }

  lemma KeysOfSnoc(init: seq<string>, last: string, resourceId: nat)
    ensures (set u | u in init + [last] :: (u, resourceId)) == (set u | u in init :: (u, resourceId)) + {(last, resourceId)}
  {
  }

  /** Once every address comes to a user, each of those users has the new limit. */
  lemma EveryNamedUserGetsLimit(accounts: seq<Account>, resources: seq<Resource>, choice: Choice,
                                resourceType: Option<string>, resourceName: Option<string>, emails: seq<string>,
                                m: map<(string, nat), UserQuota>, limit: int)
    requires ResolveAll(accounts, resources, choice, resourceType, resourceName, emails).Ok? && emails != []
    ensures choice.Chosen?
    ensures var ids := ResolveAll(accounts, resources, choice, resourceType, resourceName, emails).value;
      forall j :: 0 <= j < |emails| ==> LimitSetFor(accounts, SetLimits(m, ids, choice.resource.id, limit), emails[j], choice.resource.id, limit)
  {
    NamedUsersGetLimit(accounts, resources, choice, resourceType, resourceName, emails, m, limit, 0);
    forall j | 0 <= j < |emails|
      ensures LimitSetFor(accounts, SetLimits(m, ResolveAll(accounts, resources, choice, resourceType, resourceName, emails).value,
                                              choice.resource.id, limit), emails[j], choice.resource.id, limit)
    {
      NamedUsersGetLimit(accounts, resources, choice, resourceType, resourceName, emails, m, limit, j);
    }
  }

  /** The user of the address has the limit for the resource. */
  predicate LimitSetFor(accounts: seq<Account>, m: map<(string, nat), UserQuota>, email: string, resourceId: nat, limit: int)
  {
    var found := FindAccount(accounts, None, Some(email), false);
    && found.Ok? && found.value.Some?
    && (accounts[found.value.value].id, resourceId) in m
    && m[(accounts[found.value.value].id, resourceId)].limit == limit
  }

  /** Every address in the list comes to a user who has the limit for the resource. */
  predicate AllLimitsSet(accounts: seq<Account>, m: map<(string, nat), UserQuota>, emails: seq<string>, resourceId: nat, limit: int)
  {
    emails == [] || (LimitSetFor(accounts, m, emails[0], resourceId, limit) && AllLimitsSet(accounts, m, emails[1..], resourceId, limit))
  }

  lemma {:induction false} AllLimitsSetIff(accounts: seq<Account>, m: map<(string, nat), UserQuota>, emails: seq<string>,
                                           resourceId: nat, limit: int)
    ensures AllLimitsSet(accounts, m, emails, resourceId, limit)
        <==> forall j :: 0 <= j < |emails| ==> LimitSetFor(accounts, m, emails[j], resourceId, limit)
  {
    if emails != [] {
      AllLimitsSetIff(accounts, m, emails[1..], resourceId, limit);
      assert forall j :: 1 <= j < |emails| ==> emails[1..][j - 1] == emails[j];
    }
  }

  /** `EveryNamedUserGetsLimit` in the form `QuotaSet` states it. */
  lemma AllNamedUsersGetLimit(accounts: seq<Account>, resources: seq<Resource>, choice: Choice,
                              resourceType: Option<string>, resourceName: Option<string>, emails: seq<string>,
                              m: map<(string, nat), UserQuota>, limit: int)
    requires ResolveAll(accounts, resources, choice, resourceType, resourceName, emails).Ok? && emails != []
    ensures choice.Chosen?
    ensures AllLimitsSet(accounts, SetLimits(m, ResolveAll(accounts, resources, choice, resourceType, resourceName, emails).value,
                                             choice.resource.id, limit), emails, choice.resource.id, limit)
  {
    EveryNamedUserGetsLimit(accounts, resources, choice, resourceType, resourceName, emails, m, limit);
    AllLimitsSetIff(accounts, SetLimits(m, ResolveAll(accounts, resources, choice, resourceType, resourceName, emails).value,
                                        choice.resource.id, limit), emails, choice.resource.id, limit);
  }

  /** The administrator's view of the users, resources and user-resource tables. */
  class QuotaTables {
    var accounts: seq<Account>
    var resources: seq<Resource>
    var userResources: map<(string, nat), UserQuota>

    constructor (accounts: seq<Account>, resources: seq<Resource>, userResources: map<(string, nat), UserQuota>)
      ensures this.accounts == accounts && this.resources == resources && this.userResources == userResources
    {
      this.accounts := accounts;
      this.resources := resources;
      this.userResources := userResources;
    }

    /**
     * `quota-set` for the given addresses (click demands at least one): the
     * limits are committed together at the end, so a command stopped on any
     * address changes nothing.
     */
    method QuotaSet(validTypes: seq<string>, emails: seq<string>, resourceType: Option<string>,
                    resourceName: Option<string>, limit: int)
      returns (result: CommandResult)
      requires emails != []
      modifies this
      ensures var choice := SelectResource(old(resources), validTypes, resourceType, resourceName);
        match ResolveAll(old(accounts), old(resources), choice, resourceType, resourceName, emails)
        case Err(e) => result == e && userResources == old(userResources)
        case Ok(ids) =>
          && result == Succeeded
          && userResources == SetLimits(old(userResources), ids, choice.resource.id, limit)
      ensures result == Succeeded ==>
        var choice := SelectResource(old(resources), validTypes, resourceType, resourceName);
        choice.Chosen? && AllLimitsSet(accounts, userResources, emails, choice.resource.id, limit)
      ensures accounts == old(accounts) && resources == old(resources)
    {
      var choice := SelectResource(resources, validTypes, resourceType, resourceName);
      var pending := PendingLimits(accounts, resources, choice, resourceType, resourceName, emails, userResources, limit);
      if pending.Err? {
        return pending.error;
      }
      AllNamedUsersGetLimit(accounts, resources, choice, resourceType, resourceName, emails, userResources, limit);
      userResources := pending.value;
      result := Succeeded;
    }
  }

  /**
   * The loop of `quota-set` over the addresses: it stops at the first address
   * that fails, and otherwise comes back with the user-resource table the new
   * limits make of `m`.
   */
  method PendingLimits(accounts: seq<Account>, resources: seq<Resource>, choice: Choice,
                       resourceType: Option<string>, resourceName: Option<string>, emails: seq<string>,
                       m: map<(string, nat), UserQuota>, limit: int)
    returns (pending: Result<map<(string, nat), UserQuota>, CommandResult>)
    requires emails != []
    ensures ResolveAll(accounts, resources, choice, resourceType, resourceName, emails).Err? ==>
      pending == Err(ResolveAll(accounts, resources, choice, resourceType, resourceName, emails).error)
    ensures ResolveAll(accounts, resources, choice, resourceType, resourceName, emails).Ok? ==>
      && choice.Chosen?
      && pending == Ok(SetLimits(m, ResolveAll(accounts, resources, choice, resourceType, resourceName, emails).value,
                                 choice.resource.id, limit))
  {
    var table := m;
    ghost var ids: seq<string> := [];
    var i := 0;
    while i < |emails|
      invariant 0 <= i <= |emails|
      invariant ResolveAll(accounts, resources, choice, resourceType, resourceName, emails[..i]) == Ok(ids)
      invariant i > 0 ==> choice.Chosen?
      invariant i > 0 ==> table == SetLimits(m, ids, choice.resource.id, limit)
      invariant i == 0 ==> table == m && ids == []
    {
      var step := EmailStep(accounts, resources, choice, resourceType, resourceName, emails[i]);
      ResolveStep(accounts, resources, choice, resourceType, resourceName, emails, i);
      if step.Err? {
        SkipRest(accounts, resources, choice, resourceType, resourceName, emails, i + 1);
        return Err(step.error);
      }
      SetLimitsSnoc(m, ids, step.value, choice.resource.id, limit);
      table := SetOne(table, step.value, choice.resource.id, limit);
      ids := ids + [step.value];
      i := i + 1;
    }
    assert emails[..i] == emails;
    pending := Ok(table);
  }

  lemma ResolveStep(accounts: seq<Account>, resources: seq<Resource>, choice: Choice,
                    resourceType: Option<string>, resourceName: Option<string>, emails: seq<string>, i: nat)
    requires i < |emails|
    requires ResolveAll(accounts, resources, choice, resourceType, resourceName, emails[..i]).Ok?
    ensures var before := ResolveAll(accounts, resources, choice, resourceType, resourceName, emails[..i]).value;
      ResolveAll(accounts, resources, choice, resourceType, resourceName, emails[..i + 1])
        == match EmailStep(accounts, resources, choice, resourceType, resourceName, emails[i])
           case Err(e) => Err(e)
           case Ok(id) => Ok(before + [id])
  {
    assert emails[..i + 1][..i] == emails[..i];
  }

  lemma SetLimitsSnoc(m: map<(string, nat), UserQuota>, userIds: seq<string>, u: string, resourceId: nat, limit: int)
    ensures SetLimits(m, userIds + [u], resourceId, limit) == SetOne(SetLimits(m, userIds, resourceId, limit), u, resourceId, limit)
  {
    assert (userIds + [u])[..|userIds|] == userIds;
  }

  /** Once an address stops the command, the addresses after it do not matter. */
  lemma {:induction false} SkipRest(accounts: seq<Account>, resources: seq<Resource>, choice: Choice,
                                    resourceType: Option<string>, resourceName: Option<string>, emails: seq<string>, n: nat)
    requires 0 < n <= |emails|
    requires ResolveAll(accounts, resources, choice, resourceType, resourceName, emails[..n]).Err?
    ensures ResolveAll(accounts, resources, choice, resourceType, resourceName, emails)
         == ResolveAll(accounts, resources, choice, resourceType, resourceName, emails[..n])
    decreases |emails| - n
  {
    if n < |emails| {
      assert emails[..n + 1][..n] == emails[..n];
      SkipRest(accounts, resources, choice, resourceType, resourceName, emails, n + 1);
    } else {
      assert emails[..n] == emails;
    }
  }

  /**
   * As written, a known resource type with no resource at all is reported as
   * an error and the command exits with status 0; as intended it is a
   * missing resource and the command exits with status 1.
   */
  lemma MissingTypeExitsZero(accounts: seq<Account>, email: string)
    requires FindAccount(accounts, None, Some(email), false).Ok?
    requires FindAccount(accounts, None, Some(email), false).value.Some?
    ensures var asWritten := SelectResourceAsWritten([], ["cpu", "disk"], Some("cpu"), None);
      var r := EmailStep(accounts, [], asWritten, Some("cpu"), None, email);
      r.Err? && ExitStatus(r.error) == 0
    ensures var intended := SelectResource([], ["cpu", "disk"], Some("cpu"), None);
      var r := EmailStep(accounts, [], intended, Some("cpu"), None, email);
      r.Err? && ExitStatus(r.error) == 1
  {
    assert "cpu" in ["cpu", "disk"];
  }
}
