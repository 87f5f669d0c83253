// The validators and small decision helpers of the server's utilities.
module Utils {
  import opened Wrappers
  import opened Text

  // ---------------------------------------------------------------------
  // UUIDs

  predicate IsHexDigit(c: char)
  {
    '0' <= c <= '9' || 'a' <= c <= 'f' || 'A' <= c <= 'F'
  }

  predicate IsLowerHexDigit(c: char)
  {
    '0' <= c <= '9' || 'a' <= c <= 'f'
  }

  function HexValue(c: char): (v: nat)
    requires IsHexDigit(c)
    ensures v < 16
  {
    if '0' <= c <= '9' then c as int - '0' as int
    else if 'a' <= c <= 'f' then c as int - 'a' as int + 10
    else c as int - 'A' as int + 10
  }

  function HexChar(v: nat): (c: char)
    requires v < 16
    ensures IsLowerHexDigit(c) && HexValue(c) == v
  {
    if v < 10 then ('0' as int + v) as char else ('a' as int + v - 10) as char
  }

  /** `s.replace(pat, "")`, scanning from the left. */
  function RemoveAll(s: string, pat: string): (r: string)
    requires pat != []
    ensures forall c :: c in pat && c !in s ==> r == s
    decreases |s|
  {
    if |s| < |pat| then s
    else if s[..|pat|] == pat then
      assert pat[0] in s;
      RemoveAll(s[|pat|..], pat)
    else [s[0]] + RemoveAll(s[1..], pat)
  }

  predicate AllLowerHex(s: string)
  {
    forall k :: 0 <= k < |s| ==> IsLowerHexDigit(s[k])
  }

  /** The form `hex` always has: 32 lower-case digits, version 4, RFC 4122 variant. */
  predicate CanonicalV4(d: string)
  {
    |d| == 32 && AllLowerHex(d) && d[12] == '4' && d[16] in "89ab"
  }

  lemma LowerHexMember(s: string, c: char)
    requires AllLowerHex(s) && c in s
    ensures IsLowerHexDigit(c) && c != ':' && c != '{' && c != '}'
  {
    var k :| 0 <= k < |s| && s[k] == c;
    assert IsLowerHexDigit(s[k]);
  }

  /** The 32 hex digits with the version nibble set to 4 and the variant bits to RFC 4122's. */
  function ForceVersion4(h: string): (r: string)
    requires |h| == 32 && forall k :: 0 <= k < 32 ==> IsHexDigit(h[k])
    ensures CanonicalV4(r)
    ensures forall k :: 0 <= k < 32 && k != 12 && k != 16 ==> r[k] == LowerChar(h[k])
  {
    var l := Lower(h);
    assert forall k :: 0 <= k < 32 ==> IsLowerHexDigit(l[k]) by {
      forall k | 0 <= k < 32 ensures IsLowerHexDigit(l[k]) {
        assert l[k] == LowerChar(h[k]) && IsHexDigit(h[k]);
      }
    }
    var v := HexChar(HexValue(l[16]) % 4 + 8);
    assert v in "89ab" by {
      var n := HexValue(l[16]) % 4 + 8;
      assert n == 8 || n == 9 || n == 10 || n == 11;
    }
    l[..12] + ['4'] + l[13..16] + [v] + l[17..]
  }

  /** A canonical hex string is left as it is. */
  lemma ForceVersion4Canonical(d: string)
    requires CanonicalV4(d)
    ensures ForceVersion4(d) == d
  {
    var r := ForceVersion4(d);
    forall k | 0 <= k < 32
      ensures r[k] == d[k]
    {
      assert IsLowerHexDigit(d[k]);
      if k == 16 {
        assert d[16] in "89ab";
      }
    }
  }

  /**
   * `UUID(s, version=4).hex`, or `None` where the constructor raises: the
   * `urn:` and `uuid:` prefixes and the braces and dashes are dropped, and 32
   * hex digits must remain.
   */
  function UuidVersion4Hex(s: string): (r: Option<string>)
    ensures r.Some? ==> CanonicalV4(r.value)
  {
    var h := RemoveChar(Strip(RemoveAll(RemoveAll(s, "urn:"), "uuid:"), {'{', '}'}), '-');
    if |h| == 32 && forall k :: 0 <= k < 32 ==> IsHexDigit(h[k]) then Some(ForceVersion4(h)) else None
  }

  /**
   * `is_uuid_v4`: once its dashes are dropped, the string is 32 lower-case hex
   * digits whose version nibble is 4 and whose variant nibble is 8, 9, a or b.
   */
  function IsUuidV4(s: string): (r: bool)
    ensures r <==> CanonicalV4(RemoveChar(s, '-'))
  {
    var u := UuidVersion4Hex(s);
    var d := RemoveChar(s, '-');
    if CanonicalV4(d) then
      UuidOfCanonical(s);
      u.Some? && u.value == d
    else
      u.Some? && u.value == d
  }

  lemma UuidOfCanonical(s: string)
    requires CanonicalV4(RemoveChar(s, '-'))
    ensures UuidVersion4Hex(s) == Some(RemoveChar(s, '-'))
  {
    var d := RemoveChar(s, '-');
    assert ':' !in s by {
      if ':' in s { LowerHexMember(d, ':'); }
    }
    assert ':' in "urn:" && ':' in "uuid:";
    assert RemoveAll(RemoveAll(s, "urn:"), "uuid:") == s;
    assert s != [] by { assert d[0] in s; }
    assert s[0] == '-' || s[0] in d;
    assert s[|s| - 1] == '-' || s[|s| - 1] in d;
    if s[0] in d { LowerHexMember(d, s[0]); }
    if s[|s| - 1] in d { LowerHexMember(d, s[|s| - 1]); }
    StripUnchanged(s, {'{', '}'});
    ForceVersion4Canonical(d);
  }

  /** The test cannot be fooled by upper-case digits: `hex` is always lower case. */
  lemma UpperCaseRejected(s: string, k: nat)
    requires k < |RemoveChar(s, '-')| && 'A' <= RemoveChar(s, '-')[k] <= 'F'
    ensures !IsUuidV4(s)
  {
  }

  // ---------------------------------------------------------------------
  // Quota percentages

  /**
   * `get_usage_percentage`: no percentage at all for a zero limit; otherwise
   * `format` renders the ratio (`"{:.1%}"` on a float, not modelled here).
   */
  function UsagePercentage(usage: int, limit: int, format: (int, int) -> string): (r: string)
    ensures limit == 0 ==> r == ""
    ensures limit != 0 ==> r == format(usage, limit)
  {
    if limit == 0 then "" else format(usage, limit)
  }

  // ---------------------------------------------------------------------
  // Command-line validators; an `Err` carries the exit status.

  /** `_validate_password`: at least six characters, handed back unchanged. */
  function ValidatePassword(value: string): (r: Result<string, int>)
    ensures r.Ok? <==> |value| >= 6
    ensures r.Ok? ==> r.value == value
    ensures r.Err? ==> r.error == 1
  {
    if |value| < 6 then Err(1) else Ok(value)
  }

  predicate IsLowerAlnum(c: char)
  {
    'a' <= c <= 'z' || '0' <= c <= '9'
  }

  /** `\w`, on ASCII. */
  predicate IsWordChar(c: char)
  {
    'a' <= c <= 'z' || 'A' <= c <= 'Z' || '0' <= c <= '9' || c == '_'
  }

  predicate AllLowerAlnum(s: string)
  {
    s != [] && forall k :: 0 <= k < |s| ==> IsLowerAlnum(s[k])
  }

  predicate AllWord(s: string)
  {
    s != [] && forall k :: 0 <= k < |s| ==> IsWordChar(s[k])
  }

  /** `[a-z0-9]+[\._]?[a-z0-9]+`, matching the whole of `l`. */
  predicate LocalPartMatches(l: string)
  {
    || (exists j :: 1 <= j < |l| && AllLowerAlnum(l[..j]) && AllLowerAlnum(l[j..]))
    || (exists j :: 1 <= j < |l| - 1 && (l[j] == '.' || l[j] == '_') && AllLowerAlnum(l[..j]) && AllLowerAlnum(l[j + 1..]))
  }

  /** `\w+[.]\w{2,3}`, matching the whole of `d`. */
  predicate DomainMatches(d: string)
  {
    exists j :: 1 <= j && j + 3 <= |d| <= j + 4 && AllWord(d[..j]) && d[j] == '.' && AllWord(d[j + 1..])
  }

  /** The whole of `s` matches `[a-z0-9]+[\._]?[a-z0-9]+[@]\w+[.]\w{2,3}`. */
  predicate EmailFullMatch(s: string)
  {
    exists i :: 0 <= i < |s| && s[i] == '@' && LocalPartMatches(s[..i]) && DomainMatches(s[i + 1..])
  }

  /**
   * `re.search` of the pattern anchored by `^` and `$`, as `_validate_email`
   * calls it: `$` also matches just before a final newline.
   */
  predicate EmailSearchAsWritten(s: string)
  {
    EmailFullMatch(s) || (s != [] && s[|s| - 1] == '\n' && EmailFullMatch(s[..|s| - 1]))
  }

  /** The characters an address may be made of: `\w`, `.` and `@`. */
  predicate AddressChar(c: char)
  {
    IsWordChar(c) || c == '.' || c == '@'
  }

  lemma LocalPartChars(l: string, k: nat)
    requires LocalPartMatches(l) && k < |l|
    ensures IsLowerAlnum(l[k]) || l[k] == '.' || l[k] == '_'
  {
    if j :| 1 <= j < |l| && AllLowerAlnum(l[..j]) && AllLowerAlnum(l[j..]) {
      if k < j { assert l[..j][k] == l[k]; } else { assert l[j..][k - j] == l[k]; }
    } else {
      var j :| 1 <= j < |l| - 1 && (l[j] == '.' || l[j] == '_') && AllLowerAlnum(l[..j]) && AllLowerAlnum(l[j + 1..]);
      if k < j { assert l[..j][k] == l[k]; } else if k > j { assert l[j + 1..][k - j - 1] == l[k]; }
    }
  }

  /** The domain has exactly one dot, at `j`, and nothing else but `\w`. */
  lemma DomainChars(d: string) returns (j: nat)
    requires DomainMatches(d)
    ensures 1 <= j && j + 3 <= |d| <= j + 4 && d[j] == '.'
    ensures forall k :: 0 <= k < |d| && k != j ==> IsWordChar(d[k])
  {
    j :| 1 <= j && j + 3 <= |d| <= j + 4 && AllWord(d[..j]) && d[j] == '.' && AllWord(d[j + 1..]);
    forall k | 0 <= k < |d| && k != j
      ensures IsWordChar(d[k])
    {
      if k < j { assert d[..j][k] == d[k]; } else { assert d[j + 1..][k - j - 1] == d[k]; }
    }
  }

  /**
   * What the pattern demands of an address: a single `@`, at least two
   * characters before it, a single `.` after it with two or three characters
   * after that, and nothing but `\w`, `.` and `@` throughout.
   */
  lemma EmailShape(s: string) returns (i: nat, j: nat)
    requires EmailFullMatch(s)
    ensures i < |s| && s[i] == '@' && 2 <= i
    ensures forall k :: 0 <= k < |s| && s[k] == '@' ==> k == i
    ensures i + 1 < j < |s| && s[j] == '.' && j + 3 <= |s| <= j + 4
    ensures forall k :: i < k < |s| && s[k] == '.' ==> k == j
    ensures forall k :: 0 <= k < |s| ==> AddressChar(s[k])
  {
    i :| 0 <= i < |s| && s[i] == '@' && LocalPartMatches(s[..i]) && DomainMatches(s[i + 1..]);
    LocalPartIn(s, i);
    j := DomainIn(s, i);
  }

  lemma LocalPartIn(s: string, i: nat)
    requires i <= |s| && LocalPartMatches(s[..i])
    ensures 2 <= i
    ensures forall k :: 0 <= k < i ==> AddressChar(s[k]) && s[k] != '@'
  {
    var l := s[..i];
    forall k | 0 <= k < i
      ensures AddressChar(s[k]) && s[k] != '@'
    {
      LocalPartChars(l, k);
      assert l[k] == s[k];
    }
  }

  lemma DomainIn(s: string, i: nat) returns (j: nat)
    requires i < |s| && DomainMatches(s[i + 1..])
    ensures i + 1 < j < |s| && s[j] == '.' && j + 3 <= |s| <= j + 4
    ensures forall k :: i < k < |s| && k != j ==> AddressChar(s[k]) && s[k] != '@' && s[k] != '.'
  {
    var d := s[i + 1..];
    var dj := DomainChars(d);
    j := i + 1 + dj;
    forall k | i < k < |s| && k != j
      ensures AddressChar(s[k]) && s[k] != '@' && s[k] != '.'
    {
      assert d[k - i - 1] == s[k];
    }
  }

  /** An address followed by a newline passes the check as written, though it is not an address. */
  lemma NewlineAfterAddress(s: string)
    requires EmailFullMatch(s)
    ensures EmailSearchAsWritten(s + "\n")
    ensures !EmailFullMatch(s + "\n")
  {
    assert (s + "\n")[..|s|] == s;
    assert (s + "\n")[|s|] == '\n';
    EmailHasNoNewline(s + "\n");
  }

  lemma ExampleAddress()
    ensures EmailFullMatch("ab@cd.ef")
  {
    var s := "ab@cd.ef";
    assert s[..2] == "ab" && s[3..] == "cd.ef";
    assert LocalPartMatches("ab") by {
      assert "ab"[..1] == "a" && "ab"[1..] == "b";
    }
    assert DomainMatches("cd.ef") by {
      assert "cd.ef"[..2] == "cd" && "cd.ef"[3..] == "ef";
    }
  }

  /** For instance `ab@cd.ef` with a newline after it. */
  lemma TrailingNewlineAccepted()
    ensures EmailSearchAsWritten("ab@cd.ef\n")
    ensures !EmailFullMatch("ab@cd.ef\n")
  {
    ExampleAddress();
    NewlineAfterAddress("ab@cd.ef");
    assert "ab@cd.ef" + "\n" == "ab@cd.ef\n";
  }

  /** No matching address holds a newline. */
  lemma EmailHasNoNewline(s: string)
    ensures EmailFullMatch(s) ==> '\n' !in s
  {
    if EmailFullMatch(s) {
      var i, j := EmailShape(s);
      forall k | 0 <= k < |s| ensures s[k] != '\n' {
        assert AddressChar(s[k]);
      }
    }
  }

  /** `_validate_email` as written. */
  function ValidateEmailAsWritten(value: string): (r: Result<string, int>)
    ensures r.Ok? <==> EmailSearchAsWritten(value)
    ensures r.Ok? ==> r.value == value
    ensures r.Err? ==> r.error == 1
  {
    if EmailSearchAsWritten(value) then Ok(value) else Err(1)
  }

  /** `_validate_email` as intended: the whole value must be an address. */
  function ValidateEmail(value: string): (r: Result<string, int>)
    ensures r.Ok? <==> EmailFullMatch(value)
    ensures r.Ok? ==> r.value == value && '\n' !in value
    ensures r.Err? ==> r.error == 1
  {
    if EmailFullMatch(value) then
      EmailHasNoNewline(value);
      Ok(value)
    else Err(1)
  }

  /** On values without a final newline the check as written and the intended one agree. */
  lemma EmailChecksAgree(value: string)
    requires value == [] || value[|value| - 1] != '\n'
    ensures ValidateEmailAsWritten(value) == ValidateEmail(value)
  {
  }

  // ---------------------------------------------------------------------
  // Users

  /** The columns a user can be looked up by. */
  datatype User = User(id: string, email: string, accessToken: string)

  /** The `filter_by` keyword arguments `_get_user_by_criteria` builds: the id wins over the email. */
  function UserCriteria(id: Option<string>, email: Option<string>): (r: map<string, string>)
    ensures TruthyStr(id) ==> r == map["id_" := id.value]
    ensures !TruthyStr(id) && TruthyStr(email) ==> r == map["email" := email.value]
    ensures !TruthyStr(id) && !TruthyStr(email) ==> r == map[]
  {
    if TruthyStr(id) then map["id_" := id.value]
    else if TruthyStr(email) then map["email" := email.value]
    else map[]
  }

  /** A row satisfies `filter_by(**criteria)`. */
  predicate Satisfies(u: User, criteria: map<string, string>)
  {
    && ("id_" in criteria ==> u.id == criteria["id_"])
    && ("email" in criteria ==> u.email == criteria["email"])
  }

  function MatchingUsers(users: seq<User>, criteria: map<string, string>): (r: seq<User>)
    ensures forall u :: u in r <==> u in users && Satisfies(u, criteria)
    ensures |r| <= |users|
  {
    if users == [] then []
    else if Satisfies(users[0], criteria) then [users[0]] + MatchingUsers(users[1..], criteria)
    else MatchingUsers(users[1..], criteria)
  }

  /** `MultipleResultsFound` from `one_or_none`; it is not caught. */
  datatype LookupError = MultipleResultsFound

  /**
   * `_get_user_by_criteria` over the rows of the user table; `malformedId`
   * says whether the database rejects the id (a `StatementError`, which gives
   * no user).
   */
  function GetUserByCriteria(users: seq<User>, id: Option<string>, email: Option<string>, malformedId: bool)
    : (r: Result<Option<User>, LookupError>)
    ensures var m := MatchingUsers(users, UserCriteria(id, email));
      && (r == Ok(None) <==> (malformedId && TruthyStr(id)) || m == [])
      && (r.Ok? && r.value.Some? ==> |m| == 1 && r.value.value == m[0])
      && (r.Err? <==> !(malformedId && TruthyStr(id)) && |m| > 1)
  {
    if malformedId && TruthyStr(id) then Ok(None)
    else
      var m := MatchingUsers(users, UserCriteria(id, email));
      if m == [] then Ok(None) else if |m| == 1 then Ok(Some(m[0])) else Err(MultipleResultsFound)
  }

  /** Given an id, the email given alongside it plays no part. */
  lemma IdTakesPrecedence(users: seq<User>, id: string, email1: Option<string>, email2: Option<string>, malformedId: bool)
    requires id != ""
    ensures GetUserByCriteria(users, Some(id), email1, malformedId) == GetUserByCriteria(users, Some(id), email2, malformedId)
  {
  }

  /** A user found by id has that id; one found by email has that email. */
  lemma FoundUserMatches(users: seq<User>, id: Option<string>, email: Option<string>, malformedId: bool)
    requires var r := GetUserByCriteria(users, id, email, malformedId); r.Ok? && r.value.Some?
    ensures var u := GetUserByCriteria(users, id, email, malformedId).value.value;
      && u in users
      && (TruthyStr(id) ==> u.id == id.value)
      && (!TruthyStr(id) && TruthyStr(email) ==> u.email == email.value)
  {
    var m := MatchingUsers(users, UserCriteria(id, email));
    assert m[0] in m;
  }

  /** `ValueError("Admin access token invalid.")`. */
  datatype AdminError = AdminTokenInvalid

  /**
   * The columns `_create_user` gives the new user: the email, and the access
   * token given or, when it is empty, the freshly generated `generated`.
   */
  function NewUserParameters(email: string, userToken: Option<string>, generated: string,
                             adminToken: Option<string>, storedAdminToken: Option<string>)
    : (r: Result<map<string, string>, AdminError>)
    ensures r.Err? <==> adminToken != storedAdminToken
    ensures r.Ok? ==> r.value.Keys == {"access_token", "email"} && r.value["email"] == email
    ensures r.Ok? && TruthyStr(userToken) ==> r.value["access_token"] == userToken.value
    ensures r.Ok? && !TruthyStr(userToken) ==> r.value["access_token"] == generated
  {
    if adminToken != storedAdminToken then Err(AdminTokenInvalid)
    else
      var token := if TruthyStr(userToken) then userToken.value else generated;
      Ok(map["access_token" := token, "email" := email])
  }

  /** A new user never ends up without a token, since a generated one is never empty. */
  lemma NewUserHasToken(email: string, userToken: Option<string>, generated: string, adminToken: Option<string>)
    requires generated != ""
    ensures var r := NewUserParameters(email, userToken, generated, adminToken, adminToken);
      r.Ok? && r.value["access_token"] != ""
  {
  }

  // ---------------------------------------------------------------------
  // GitLab webhooks

  /** A `KeyError` (or indexing a value that is not an object) while reading a webhook. */
  datatype WebhookError = MissingKey | UnknownKind

  /** `data[k1][k2]...`, failing at the first key that is not there. */
  function Lookup(data: Json, keys: seq<string>): (r: Result<Json, WebhookError>)
    ensures keys == [] ==> r == Ok(data)
    ensures r.Err? ==> r.error == MissingKey
    decreases |keys|
  {
    if keys == [] then Ok(data)
    else if data.JObject? && keys[0] in data.fields then Lookup(data.fields[keys[0]], keys[1..])
    else Err(MissingKey)
  }

  /**
   * The branch and commit `_get_reana_yaml_from_gitlab` builds from a webhook.
   * Any other kind of event leaves `branch` unbound, here `UnknownKind`.
   */
  function BranchAndCommit(data: Json): (r: Result<(Json, Json), WebhookError>)
  {
    var kind :- Lookup(data, ["object_kind"]);
    if kind == JStr("push") then
      var branch :- Lookup(data, ["project", "default_branch"]);
      var sha :- Lookup(data, ["checkout_sha"]);
      Ok((branch, sha))
    else if kind == JStr("merge_request") then
      var branch :- Lookup(data, ["object_attributes", "source_branch"]);
      var sha :- Lookup(data, ["object_attributes", "last_commit", "id"]);
      Ok((branch, sha))
    else Err(UnknownKind)
  }

  /** Only push and merge request events give a branch. */
  lemma BranchOnlyForKnownKinds(data: Json)
    requires BranchAndCommit(data).Ok?
    ensures data.JObject? && "object_kind" in data.fields
    ensures data.fields["object_kind"] in {JStr("push"), JStr("merge_request")}
  {
  }

  /** A push event is read from the project's default branch and the checked-out commit only. */
  lemma PushReadsDefaultBranch(project: map<string, Json>, sha: Json, others: map<string, Json>)
    requires "default_branch" in project
    ensures var data := JObject(others["object_kind" := JStr("push")]["project" := JObject(project)]["checkout_sha" := sha]);
      BranchAndCommit(data) == Ok((project["default_branch"], sha))
  {
    var data := JObject(others["object_kind" := JStr("push")]["project" := JObject(project)]["checkout_sha" := sha]);
    assert Lookup(data, ["object_kind"]) == Ok(JStr("push")) by {
      assert Lookup(data, ["object_kind"]) == Lookup(JStr("push"), []);
    }
    assert Lookup(data, ["project", "default_branch"]) == Ok(project["default_branch"]) by {
      assert ["project", "default_branch"][1..] == ["default_branch"];
      assert ["default_branch"][1..] == [];
    }
    assert Lookup(data, ["checkout_sha"]) == Ok(sha) by {
      assert ["checkout_sha"][1..] == [];
    }
  }

  /** A merge request is read from its source branch and its last commit only. */
  lemma MergeRequestReadsSourceBranch(attributes: map<string, Json>, commit: map<string, Json>, others: map<string, Json>)
    requires "source_branch" in attributes && "id" in commit
    ensures var attrs := attributes["last_commit" := JObject(commit)];
      var data := JObject(others["object_kind" := JStr("merge_request")]["object_attributes" := JObject(attrs)]);
      BranchAndCommit(data) == Ok((attributes["source_branch"], commit["id"]))
  {
    var attrs := attributes["last_commit" := JObject(commit)];
    var data := JObject(others["object_kind" := JStr("merge_request")]["object_attributes" := JObject(attrs)]);
    assert Lookup(data, ["object_kind"]) == Ok(JStr("merge_request")) by {
      assert ["object_kind"][1..] == [];
    }
    assert Lookup(data, ["object_attributes", "source_branch"]) == Ok(attributes["source_branch"]) by {
      assert ["object_attributes", "source_branch"][1..] == ["source_branch"];
      assert ["source_branch"][1..] == [];
    }
    assert Lookup(data, ["object_attributes", "last_commit", "id"]) == Ok(commit["id"]) by {
      assert ["object_attributes", "last_commit", "id"][1..] == ["last_commit", "id"];
      assert ["last_commit", "id"][1..] == ["id"];
      assert ["id"][1..] == [];
    }
  }

  /** `hook["url"] and hook["url"] == create_workflow_url`; `None` is the `KeyError`. */
  function HookMatches(hook: map<string, Json>, createUrl: string): Option<bool>
  {
    if "url" !in hook then None
    else Some(Truthy(hook["url"]) && hook["url"] == JStr(createUrl))
  }

  /**
   * The `next(...)` of `_get_gitlab_hook_id`: the id of the first hook whose
   * url is the create-workflow URL, `None` when there is none; a hook without
   * a url met before that, or a matching hook without an id, is a `KeyError`.
   */
  function FirstHookId(hooks: seq<map<string, Json>>, createUrl: string): (r: Result<Option<Json>, WebhookError>)
    ensures r.Err? ==> r.error == MissingKey
    ensures r == Ok(None) <==> forall j :: 0 <= j < |hooks| ==> HookMatches(hooks[j], createUrl) == Some(false)
    ensures r.Ok? && r.value.Some? ==>
      exists i :: && 0 <= i < |hooks| && HookMatches(hooks[i], createUrl) == Some(true)
                  && "id" in hooks[i] && r.value.value == hooks[i]["id"]
                  && forall j :: 0 <= j < i ==> HookMatches(hooks[j], createUrl) == Some(false)
  {
    if hooks == [] then Ok(None)
    else match HookMatches(hooks[0], createUrl)
      case None => Err(MissingKey)
      case Some(true) => if "id" in hooks[0] then Ok(Some(hooks[0]["id"])) else Err(MissingKey)
      case Some(false) =>
        var r := FirstHookId(hooks[1..], createUrl);
        assert forall j :: 0 < j < |hooks| ==> hooks[j] == hooks[1..][j - 1];
        r
  }

  /** Without a create-workflow URL no hook is ever recognised. */
  lemma NoUrlNoHook(hooks: seq<map<string, Json>>)
    requires forall j :: 0 <= j < |hooks| ==> "url" in hooks[j]
    ensures FirstHookId(hooks, "") == Ok(None)
  {
  }

  // ---------------------------------------------------------------------
  // Upload streams

  /** A werkzeug request stream; `limit` is absent when the stream has no `limit` attribute. */
  datatype LimitedStream = LimitedStream(limit: Option<nat>, content: seq<bv8>)

  /** `RequestStreamWithLen`: a request stream with a length the HTTP client can read. */
  class RequestStreamWithLen {
    const limitedStream: LimitedStream

    constructor (limitedStream: LimitedStream)
      ensures this.limitedStream == limitedStream
    {
      this.limitedStream := limitedStream;
    }

    /** `__len__`: the stream's limit, and 0 for a stream that has none. */
    function Length(): (n: nat)
      ensures limitedStream.limit.None? ==> n == 0
      ensures limitedStream.limit.Some? ==> n == limitedStream.limit.value
    {
      match limitedStream.limit
      case None => 0
      case Some(l) => l
    }
  }
}
