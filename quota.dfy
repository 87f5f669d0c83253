// The quota endpoints: reading a user's usage and limit of one resource,
// and setting a limit, both behind the quota-management secret.
module Quota {
  import opened Wrappers
  import opened Text

  /** A JSON reply and its HTTP status; `limit` and `usage` are present only where the endpoint sends them. */
  datatype Reply = Reply(status: int, message: string, limit: Option<int>, usage: Option<int>)

  // The replies' texts.
  const NotEnabled := "Quota functionality is not enabled"
  const Unauthorized := "Unauthorized"
  const NoUserSpecified := "No user specified"
  const ExactlyOneOfThree := "Exactly one of `user_id`, `email` or `user_access_token` must be provided."
  const TypeRequired := "Resource type is required."
  const TypeQuoteOpen := "Resource type '"
  const DoesNotExist := "' does not exist. Available resource types are: "
  const NotOneOf := "' is not one of the valid types: "
  const UserNotFound := "User not found."
  const UsageUnavailable := "Resource usage is not available."
  const LimitNotSet := "Resource limit is not set."
  const OkMessage := "OK"
  const Comma := ", "
  const InvalidRequest := "Invalid request. Errors: "
  const ExactlyOneOfTwo := "Exactly one of `user_id` or `email` must be provided."

  function Message(status: int, message: string): Reply
  {
    Reply(status, message, None, None)
  }

  /** The raw limit and usage of one resource in `User.get_quota_usage()`; either may be missing. */
  datatype ResourceQuota = ResourceQuota(limit: Option<int>, usage: Option<int>)

  /** A user as the quota endpoints see it: the quota usage per resource type. */
  datatype QuotaUser = QuotaUser(quotaUsage: map<string, ResourceQuota>)

  /**
   * The deployment's secret and the list of resource types. A secret that is
   * not configured is `None` or empty.
   */
  datatype Config = Config(secret: Option<string>, resourceTypes: seq<string>)

  /** `_check_quota_management_secret`: `None` lets the request through. */
  function CheckSecret(config: Config, header: Option<string>): (r: Option<Reply>)
    ensures r.None? <==> TruthyStr(config.secret) && header == config.secret
    ensures !TruthyStr(config.secret) ==> r == Some(Message(403, NotEnabled))
    ensures TruthyStr(config.secret) && header != config.secret ==> r == Some(Message(401, Unauthorized))
  {
    if !TruthyStr(config.secret) then Some(Message(403, NotEnabled))
    else if header != config.secret then Some(Message(401, Unauthorized))
    else None
  }

  /** How many of the given criteria are truthy: `int(bool(a)) + int(bool(b)) + ...`. */
  function CountGiven(criteria: seq<Option<string>>): (n: nat)
    ensures n <= |criteria|
    ensures n == 0 <==> forall k :: 0 <= k < |criteria| ==> !TruthyStr(criteria[k])
  {
    if criteria == [] then 0 else (if TruthyStr(criteria[0]) then 1 else 0) + CountGiven(criteria[1..])
  }

  function Given(c: Option<string>): nat
  {
    if TruthyStr(c) then 1 else 0
  }

  lemma CountTwo(a: Option<string>, b: Option<string>)
    ensures CountGiven([a, b]) == Given(a) + Given(b)
  {
    assert [a, b][1..] == [b];
    assert [b][1..] == [];
  }

  lemma CountThree(a: Option<string>, b: Option<string>, c: Option<string>)
    ensures CountGiven([a, b, c]) == Given(a) + Given(b) + Given(c)
  {
    assert [a, b, c][1..] == [b, c];
    CountTwo(b, c);
  }

  /** What `_get_quota` comes back with: limit, usage, error message and status. */
  datatype QuotaLookup = QuotaLookup(limit: Option<int>, usage: Option<int>, error: Option<string>, status: int)

  /**
   * `_get_quota`; `found` is what the user query returned (a user is only
   * looked up, never created, here).
   */
  function GetQuota(config: Config, resourceType: string, found: seq<QuotaUser>): (r: QuotaLookup)
    ensures found == [] ==> r == QuotaLookup(None, None, Some(UserNotFound), 404)
    ensures found != [] && resourceType !in config.resourceTypes ==> r.status == 400 && r.error.Some?
    ensures r.status == 200 <==> found != [] && resourceType in config.resourceTypes
    ensures r.status == 200 ==>
      var q := found[0].quotaUsage;
      && r.error.None?
      && r.limit == (if resourceType in q then q[resourceType].limit else None)
      && r.usage == (if resourceType in q then q[resourceType].usage else None)
  {
    if found == [] then QuotaLookup(None, None, Some(UserNotFound), 404)
    else if resourceType !in config.resourceTypes then
      QuotaLookup(None, None, Some(TypeQuoteOpen + resourceType + NotOneOf
        + JoinWith(config.resourceTypes, Comma)), 400)
    else
      var q := found[0].quotaUsage;
      var entry := if resourceType in q then q[resourceType] else ResourceQuota(None, None);
      QuotaLookup(entry.limit, entry.usage, None, 200)
  }

  /**
   * `get_quota_usage`: the query arguments, the secret header, and the users
   * the criteria select.
   */
  function GetQuotaUsage(config: Config, header: Option<string>, userId: Option<string>, email: Option<string>,
                         userAccessToken: Option<string>, resourceType: Option<string>, found: seq<QuotaUser>): (r: Reply)
    ensures r.status != 200 ==> r.limit.None? && r.usage.None?
    ensures r.status == 200 ==> r.limit.Some? && r.usage.Some?
  {
    var denied := CheckSecret(config, header);
    if denied.Some? then denied.value
    else if !TruthyStr(userId) && !TruthyStr(email) && !TruthyStr(userAccessToken) then
      Message(400, NoUserSpecified)
    else if CountGiven([userId, email, userAccessToken]) > 1 then
      Message(400, ExactlyOneOfThree)
    else if !TruthyStr(resourceType) then Message(400, TypeRequired)
    else if resourceType.value !in config.resourceTypes then
      Message(400, TypeQuoteOpen + resourceType.value + DoesNotExist
        + JoinWith(config.resourceTypes, Comma))
    else
      var q := GetQuota(config, resourceType.value, found);
      if q.error.Some? && q.error.value != "" then Message(q.status, q.error.value)
      else if q.usage.None? then Message(500, UsageUnavailable)
      else if q.limit.None? then Reply(200, LimitNotSet, Some(-1), q.usage)
      else Reply(200, OkMessage, q.limit, q.usage)
  }

  /** Both endpoints check the secret before anything else is looked at. */
  lemma SecretCheckedFirst(config: Config, header: Option<string>, userId: Option<string>, email: Option<string>,
                           userAccessToken: Option<string>, resourceType: Option<string>, found: seq<QuotaUser>,
                           body: Option<Json>, setLimit: SetLimit)
    requires CheckSecret(config, header).Some?
    ensures GetQuotaUsage(config, header, userId, email, userAccessToken, resourceType, found).status in {401, 403}
    ensures SetQuotaLimit(config, header, body, setLimit, found) == CheckSecret(config, header).value
    ensures SetQuotaLimitAsWritten(config, header, body, setLimit, found) == CheckSecret(config, header).value
  {
  }

  /**
   * The usage is answered exactly when the secret matches, exactly one user
   * criterion is given, the resource type is known, a user is found and it has
   * a usage for that resource; the answer is that user's usage, and its limit
   * or -1.
   */
  lemma GetAnswersIff(config: Config, header: Option<string>, userId: Option<string>, email: Option<string>,
                      userAccessToken: Option<string>, resourceType: Option<string>, found: seq<QuotaUser>)
    ensures var r := GetQuotaUsage(config, header, userId, email, userAccessToken, resourceType, found);
      r.status == 200 <==>
        && CheckSecret(config, header).None?
        && CountGiven([userId, email, userAccessToken]) == 1
        && TruthyStr(resourceType) && resourceType.value in config.resourceTypes
        && found != []
        && resourceType.value in found[0].quotaUsage
        && found[0].quotaUsage[resourceType.value].usage.Some?
    ensures var r := GetQuotaUsage(config, header, userId, email, userAccessToken, resourceType, found);
      r.status == 200 ==>
        var e := found[0].quotaUsage[resourceType.value];
        r.usage == e.usage && r.limit == Some(e.limit.GetOr(-1))
  {
    CountThree(userId, email, userAccessToken);
  }

  /** The error replies of the usage endpoint, each with its status. */
  lemma GetErrorStatuses(config: Config, header: Option<string>, userId: Option<string>, email: Option<string>,
                         userAccessToken: Option<string>, resourceType: Option<string>, found: seq<QuotaUser>)
    requires CheckSecret(config, header).None?
    ensures var r := GetQuotaUsage(config, header, userId, email, userAccessToken, resourceType, found);
      && (CountGiven([userId, email, userAccessToken]) != 1 ==> r.status == 400)
      && (CountGiven([userId, email, userAccessToken]) == 1 && !TruthyStr(resourceType) ==> r.status == 400)
      && (&& CountGiven([userId, email, userAccessToken]) == 1 && TruthyStr(resourceType)
          && resourceType.value in config.resourceTypes && found == []
          ==> r == Message(404, UserNotFound))
  {
    CountThree(userId, email, userAccessToken);
  }

  // ---------------------------------------------------------------------
  // Setting a limit

  /** The body fields `SetQuotaLimitBodySchema` knows. */
  predicate KnownField(k: string)
  {
    k == "user_id" || k == "email" || k == "resource_type" || k == "limit"
  }

  /**
   * `SetQuotaLimitBodySchema().validate(body)` finds nothing: an object with
   * only known fields, string ids, a string `resource_type` and an integer `limit`.
   */
  predicate ValidBody(body: Option<Json>)
  {
    && body.Some? && body.value.JObject?
    && var f := body.value.fields;
    && (forall k :: k in f ==> KnownField(k))
    && ("user_id" in f ==> f["user_id"].JStr?)
    && ("email" in f ==> f["email"].JStr?)
    && "resource_type" in f && f["resource_type"].JStr?
    && "limit" in f && f["limit"].JInt?
  }

  function StringField(f: map<string, Json>, k: string): Option<string>
  {
    if k in f && f[k].JStr? then Some(f[k].s) else None
  }

  /** The message and status `_set_quota_limit` answers for a limit, a resource type, user ids and emails. */
  type SetLimit = (int, string, Option<seq<string>>, Option<seq<string>>) -> (string, int)

  /**
   * `set_quota_limit` as written: only a body naming both a user id and an
   * email is refused; `found` is what the user query returns afterwards.
   */
  function SetQuotaLimitAsWritten(config: Config, header: Option<string>, body: Option<Json>,
                                  setLimit: SetLimit, found: seq<QuotaUser>): (r: Reply)
    ensures r.status != 200 ==> r.limit.None? && r.usage.None?
    ensures r.status == 200 ==> r.message == OkMessage && r.limit.Some?
  {
    var denied := CheckSecret(config, header);
    if denied.Some? then denied.value
    else if !ValidBody(body) then Message(400, InvalidRequest)
    else
      var f := body.value.fields;
      var userId, email := StringField(f, "user_id"), StringField(f, "email");
      if CountGiven([userId, email]) > 1 then Message(400, ExactlyOneOfTwo)
      else SetAndReport(config, f, userId, email, setLimit, found)
  }

  /** The part after the user criteria are accepted: set the limit, then read the usage back. */
  function SetAndReport(config: Config, f: map<string, Json>, userId: Option<string>, email: Option<string>,
                        setLimit: SetLimit, found: seq<QuotaUser>): (r: Reply)
    requires "limit" in f && f["limit"].JInt? && "resource_type" in f && f["resource_type"].JStr?
    ensures r.status != 200 ==> r.limit.None? && r.usage.None?
    ensures r.status == 200 ==> r == Reply(200, OkMessage, Some(f["limit"].i), r.usage)
    ensures r.status == 200 ==> found != [] && f["resource_type"].s in config.resourceTypes
  {
    var limit, resourceType := f["limit"].i, f["resource_type"].s;
    var (msg, status) := setLimit(limit, resourceType,
                                  if TruthyStr(userId) then Some([userId.value]) else None,
                                  if TruthyStr(email) then Some([email.value]) else None);
    if status != 200 then Message(status, msg)
    else
      var q := GetQuota(config, resourceType, found);
      if q.status != 200 then Message(q.status, q.error.GetOr(""))
      else Reply(200, OkMessage, Some(limit), q.usage)
  }

  /**
   * A body naming no user at all is accepted as written, and the usage then
   * reported is that of whichever user the unfiltered query returns first.
   */
  lemma NoUserAcceptedAsWritten(config: Config, setLimit: SetLimit, someone: QuotaUser)
    requires TruthyStr(config.secret) && "cpu" in config.resourceTypes
    requires setLimit(5, "cpu", None, None).1 == 200
    ensures var body := Some(JObject(map["resource_type" := JStr("cpu"), "limit" := JInt(5)]));
      SetQuotaLimitAsWritten(config, config.secret, body, setLimit, [someone]).status == 200
  {
    var f := map["resource_type" := JStr("cpu"), "limit" := JInt(5)];
    assert ValidBody(Some(JObject(f)));
    assert StringField(f, "user_id") == None && StringField(f, "email") == None;
    var none: Option<string> := None;
    assert CountGiven([none, none]) == 0 by {
      assert [none, none][1..] == [none];
    }
  }

  /** `set_quota_limit` as its message says: exactly one of a user id and an email. */
  function SetQuotaLimit(config: Config, header: Option<string>, body: Option<Json>,
                         setLimit: SetLimit, found: seq<QuotaUser>): (r: Reply)
    ensures r.status != 200 ==> r.limit.None? && r.usage.None?
    ensures r.status == 200 ==> r.message == OkMessage && r.limit.Some?
  {
    var denied := CheckSecret(config, header);
    if denied.Some? then denied.value
    else if !ValidBody(body) then Message(400, InvalidRequest)
    else
      var f := body.value.fields;
      var userId, email := StringField(f, "user_id"), StringField(f, "email");
      if CountGiven([userId, email]) != 1 then Message(400, ExactlyOneOfTwo)
      else SetAndReport(config, f, userId, email, setLimit, found)
  }

  /**
   * A limit is set and echoed only for a request with the secret, a valid
   * body that names exactly one user, which the setter accepted and whose
   * resource type is known; the reply carries the requested limit.
   */
  lemma SetAnswersOnlyForOneUser(config: Config, header: Option<string>, body: Option<Json>,
                                 setLimit: SetLimit, found: seq<QuotaUser>)
    ensures var r := SetQuotaLimit(config, header, body, setLimit, found);
      r.status == 200 ==>
        && CheckSecret(config, header).None? && ValidBody(body)
        && var f := body.value.fields;
        && CountGiven([StringField(f, "user_id"), StringField(f, "email")]) == 1
        && found != [] && f["resource_type"].s in config.resourceTypes
        && r.limit == Some(f["limit"].i)
  {
    var r := SetQuotaLimit(config, header, body, setLimit, found);
    if r.status == 200 {
      assert CheckSecret(config, header).None?;
      var f := body.value.fields;
      var (msg, status) := setLimit(f["limit"].i, f["resource_type"].s,
                                    if TruthyStr(StringField(f, "user_id")) then Some([StringField(f, "user_id").value]) else None,
                                    if TruthyStr(StringField(f, "email")) then Some([StringField(f, "email").value]) else None);
      assert status == 200;
    }
  }

  /** `_set_quota_limit` accepts the body's limit for the body's resource type and user. */
  predicate SetterAccepts(f: map<string, Json>, setLimit: SetLimit)
    requires "limit" in f && f["limit"].JInt? && "resource_type" in f && f["resource_type"].JStr?
  {
    var userId, email := StringField(f, "user_id"), StringField(f, "email");
    setLimit(f["limit"].i, f["resource_type"].s,
             if TruthyStr(userId) then Some([userId.value]) else None,
             if TruthyStr(email) then Some([email.value]) else None).1 == 200
  }

  /**
   * The converse: a request with the secret, a valid body naming exactly one
   * user, a limit the setter accepts, a known resource type and a user found
   * afterwards is answered 200 with the requested limit and that user's usage.
   */
  lemma SetAnswersForOneUser(config: Config, header: Option<string>, body: Option<Json>,
                             setLimit: SetLimit, found: seq<QuotaUser>)
    requires CheckSecret(config, header).None? && ValidBody(body)
    requires CountGiven([StringField(body.value.fields, "user_id"), StringField(body.value.fields, "email")]) == 1
    requires SetterAccepts(body.value.fields, setLimit)
    requires found != [] && body.value.fields["resource_type"].s in config.resourceTypes
    ensures var r := SetQuotaLimit(config, header, body, setLimit, found);
      var f := body.value.fields;
      var q := found[0].quotaUsage;
      && r.status == 200 && r.message == OkMessage
      && r.limit == Some(f["limit"].i)
      && r.usage == (if f["resource_type"].s in q then q[f["resource_type"].s].usage else None)
  {
    var f := body.value.fields;
    var q := GetQuota(config, f["resource_type"].s, found);
    assert q.status == 200;
  }

  /**
   * As written, the user-criteria guard refuses exactly the bodies that name
   * both a user id and an email; every other valid body goes on to the setter.
   */
  lemma AsWrittenRefusesOnlyBoth(config: Config, header: Option<string>, body: Option<Json>,
                                 setLimit: SetLimit, found: seq<QuotaUser>)
    requires CheckSecret(config, header).None? && ValidBody(body)
    ensures var f := body.value.fields;
      var r := SetQuotaLimitAsWritten(config, header, body, setLimit, found);
      && (TruthyStr(StringField(f, "user_id")) && TruthyStr(StringField(f, "email")) ==> r == Message(400, ExactlyOneOfTwo))
      && (!(TruthyStr(StringField(f, "user_id")) && TruthyStr(StringField(f, "email"))) ==>
            r == SetAndReport(config, f, StringField(f, "user_id"), StringField(f, "email"), setLimit, found))
  {
    var f := body.value.fields;
    CountTwo(StringField(f, "user_id"), StringField(f, "email"));
  }

  /** Where a user is named, the two versions answer alike. */
  lemma SetVersionsAgree(config: Config, header: Option<string>, body: Option<Json>,
                         setLimit: SetLimit, found: seq<QuotaUser>)
    requires ValidBody(body)
    requires TruthyStr(StringField(body.value.fields, "user_id")) || TruthyStr(StringField(body.value.fields, "email"))
    ensures SetQuotaLimit(config, header, body, setLimit, found) == SetQuotaLimitAsWritten(config, header, body, setLimit, found)
  {
    var f := body.value.fields;
    CountTwo(StringField(f, "user_id"), StringField(f, "email"));
  }
}
