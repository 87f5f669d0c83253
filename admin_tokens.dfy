// `token-grant` and `token-revoke`: looking a user up and changing their
// access token.
module AdminTokens {
  import opened Wrappers
  import opened Utils
  import opened AdminCli


  datatype TokenStatus = Active | Revoked | Requested

  /** A user row with its access token: an active token is exactly one with status `active`. */
  datatype Account = Account(id: string, email: string, accessToken: Option<string>, tokenStatus: Option<TokenStatus>)

  predicate Consistent(a: Account)
  {
    a.accessToken.Some? <==> a.tokenStatus == Some(Active)
  }

  function UserOf(a: Account): User
  {
    User(a.id, a.email, a.accessToken.GetOr(""))
  }

  /** The positions of the rows a `filter_by(**criteria)` selects. */
  function MatchingIndices(accounts: seq<Account>, criteria: map<string, string>, from: nat): (r: seq<nat>)
    requires from <= |accounts|
    ensures forall k :: 0 <= k < |r| ==> from <= r[k] < |accounts|
    decreases |accounts| - from
  {
    if from == |accounts| then []
    else if Satisfies(UserOf(accounts[from]), criteria) then [from] + MatchingIndices(accounts, criteria, from + 1)
    else MatchingIndices(accounts, criteria, from + 1)
  }

  /** Row `k` is one `filter_by(**criteria)` selects. */
  predicate Selects(accounts: seq<Account>, criteria: map<string, string>, k: int)
  {
    0 <= k < |accounts| && Satisfies(UserOf(accounts[k]), criteria)
  }

  predicate Increasing(r: seq<nat>)
  {
    forall i, j :: 0 <= i < j < |r| ==> r[i] < r[j]
  }

  /** The query selects exactly the rows that satisfy the criteria. */
  lemma {:induction false} MatchingIndicesIff(accounts: seq<Account>, criteria: map<string, string>, from: nat)
    requires from <= |accounts|
    ensures forall k :: k in MatchingIndices(accounts, criteria, from) <==> from <= k && Selects(accounts, criteria, k)
    decreases |accounts| - from
  {
    if from < |accounts| {
      MatchingIndicesIff(accounts, criteria, from + 1);
    }
  }

  /** ... each once, in table order. */
  lemma {:induction false} MatchingIndicesIncrease(accounts: seq<Account>, criteria: map<string, string>, from: nat)
    requires from <= |accounts|
    ensures Increasing(MatchingIndices(accounts, criteria, from))
    decreases |accounts| - from
  {
    if from < |accounts| {
      MatchingIndicesIncrease(accounts, criteria, from + 1);
      var rest := MatchingIndices(accounts, criteria, from + 1);
      if Satisfies(UserOf(accounts[from]), criteria) {
        var r := [from] + rest;
        assert MatchingIndices(accounts, criteria, from) == r;
        forall i, j | 0 <= i < j < |r|
          ensures r[i] < r[j]
        {
          assert r[j] == rest[j - 1];
          if i > 0 {
            assert r[i] == rest[i - 1];
          }
        }
      }
    }
  }

  /** Only the id and the email take part in a lookup. */
  lemma {:induction false} MatchingIgnoresTokens(a: seq<Account>, b: seq<Account>, criteria: map<string, string>, from: nat)
    requires |a| == |b| && from <= |a|
    requires forall k :: 0 <= k < |a| ==> a[k].id == b[k].id && a[k].email == b[k].email
    ensures MatchingIndices(a, criteria, from) == MatchingIndices(b, criteria, from)
    decreases |a| - from
  {
    if from < |a| {
      MatchingIgnoresTokens(a, b, criteria, from + 1);
      assert UserOf(a[from]).id == UserOf(b[from]).id && UserOf(a[from]).email == UserOf(b[from]).email;
      assert Satisfies(UserOf(a[from]), criteria) == Satisfies(UserOf(b[from]), criteria);
    }
  }

  /** `_get_user_by_criteria`, giving the row's position. */
  function FindAccount(accounts: seq<Account>, id: Option<string>, email: Option<string>, malformedId: bool)
    : (r: Result<Option<nat>, LookupError>)
    ensures r.Ok? && r.value.Some? ==> r.value.value < |accounts|
  {
    if malformedId && TruthyStr(id) then Ok(None)
    else
      var m := MatchingIndices(accounts, UserCriteria(id, email), 0);
      if m == [] then Ok(None)
      else if |m| == 1 then (assert m[0] in m; Ok(Some(m[0])))
      else Err(MultipleResultsFound)
  }

  /** A row is found only when it is the one row the criteria select. */
  lemma FindAccountFound(accounts: seq<Account>, id: Option<string>, email: Option<string>, malformedId: bool)
    requires FindAccount(accounts, id, email, malformedId).Ok? && FindAccount(accounts, id, email, malformedId).value.Some?
    ensures var i := FindAccount(accounts, id, email, malformedId).value.value;
      && Selects(accounts, UserCriteria(id, email), i)
      && forall k :: Selects(accounts, UserCriteria(id, email), k) ==> k == i
  {
    MatchingIndicesIff(accounts, UserCriteria(id, email), 0);
    var m := MatchingIndices(accounts, UserCriteria(id, email), 0);
    assert m == [m[0]];
  }

  /** No row is found for a malformed id or when the criteria select none. */
  lemma FindAccountNone(accounts: seq<Account>, id: Option<string>, email: Option<string>, malformedId: bool)
    ensures FindAccount(accounts, id, email, malformedId) == Ok(None) <==>
      (malformedId && TruthyStr(id)) || forall k :: !Selects(accounts, UserCriteria(id, email), k)
  {
    MatchingIndicesIff(accounts, UserCriteria(id, email), 0);
    var m := MatchingIndices(accounts, UserCriteria(id, email), 0);
    if m != [] {
      assert m[0] in m;
    }
  }

  /** The lookup fails only when the criteria select two rows or more. */
  lemma FindAccountSeveral(accounts: seq<Account>, id: Option<string>, email: Option<string>, malformedId: bool)
    requires FindAccount(accounts, id, email, malformedId).Err?
    ensures exists k, j :: k < j && Selects(accounts, UserCriteria(id, email), k) && Selects(accounts, UserCriteria(id, email), j)
  {
    MatchingIndicesIff(accounts, UserCriteria(id, email), 0);
    MatchingIndicesIncrease(accounts, UserCriteria(id, email), 0);
    var m := MatchingIndices(accounts, UserCriteria(id, email), 0);
    assert !(malformedId && TruthyStr(id)) && |m| >= 2;
    assert m[0] in m && m[1] in m && m[0] < m[1];
  }

  const UserPrefix := "ERROR: User "
  const DoesNotExist := " does not exist."
  const HasTokenSuffix := ") has already an active access token."
  const NoTokenSuffix := ") does not have an active access token."
  const OpenParen := " ("

  function NoSuchUserMessage(name: string): string
  {
    UserPrefix + name + DoesNotExist
  }

  function HasTokenMessage(a: Account): string
  {
    UserPrefix + a.id + OpenParen + a.email + HasTokenSuffix
  }

  function NoTokenMessage(a: Account): string
  {
    UserPrefix + a.id + OpenParen + a.email + NoTokenSuffix
  }

  const GrantFailed := "Something went wrong while granting token"
  const RevokeFailed := "Something went wrong while revoking token"
  const GrantAborted := "Grant token aborted."
  const QuotaNotSet := "Quota could not be set"

  /** `id_ or email` in a message; `None` prints as itself. */
  function NameGiven(id: Option<string>, email: Option<string>): string
  {
    if TruthyStr(id) then id.value else if email.Some? then email.value else "None"
  }

  /**
   * `token-grant`: the outcome and the accounts afterwards. `storedAdminToken`
   * is the administrator's token, `confirmed` the answer to the prompt shown
   * for a revoked or never requested token, `generated` the new token.
   */
  function Grant(accounts: seq<Account>, adminToken: Option<string>, storedAdminToken: Option<string>,
                 id: Option<string>, email: Option<string>, malformedId: bool, confirmed: bool, generated: string)
    : (CommandResult, seq<Account>)
  {
    if adminToken != storedAdminToken then (Reported(GrantFailed), accounts)
    else match FindAccount(accounts, id, email, malformedId)
      case Err(_) => (Reported(GrantFailed), accounts)
      case Ok(None) => (Exited(1, NoSuchUserMessage(NameGiven(id, email))), accounts)
      case Ok(Some(i)) =>
        var a := accounts[i];
        if TruthyStr(a.accessToken) then
          (Exited(1, HasTokenMessage(a)), accounts)
        else if (a.tokenStatus.None? || a.tokenStatus == Some(Revoked)) && !confirmed then
          (Reported(GrantAborted), accounts)
        else
          (Succeeded, accounts[i := a.(accessToken := Some(generated), tokenStatus := Some(Active))])
  }

  /** `token-revoke`: the outcome and the accounts afterwards. */
  function Revoke(accounts: seq<Account>, adminToken: Option<string>, storedAdminToken: Option<string>,
                  id: Option<string>, email: Option<string>, malformedId: bool)
    : (CommandResult, seq<Account>)
  {
    if adminToken != storedAdminToken then (Reported(RevokeFailed), accounts)
    else match FindAccount(accounts, id, email, malformedId)
      case Err(_) => (Reported(RevokeFailed), accounts)
      case Ok(None) => (Exited(1, NoSuchUserMessage(NameGiven(id, email))), accounts)
      case Ok(Some(i)) =>
        var a := accounts[i];
        if !TruthyStr(a.accessToken) then
          (Exited(1, NoTokenMessage(a)), accounts)
        else
          (Succeeded, accounts[i := a.(accessToken := None, tokenStatus := Some(Revoked))])
  }

  /** Granting touches one row, and only its token; consistency is kept. */
  lemma GrantTouchesOneRow(accounts: seq<Account>, adminToken: Option<string>, storedAdminToken: Option<string>,
                           id: Option<string>, email: Option<string>, malformedId: bool, confirmed: bool, generated: string)
    requires forall k :: 0 <= k < |accounts| ==> Consistent(accounts[k])
    ensures var (r, after) := Grant(accounts, adminToken, storedAdminToken, id, email, malformedId, confirmed, generated);
      && |after| == |accounts|
      && (forall k :: 0 <= k < |after| ==> Consistent(after[k]) && after[k].id == accounts[k].id && after[k].email == accounts[k].email)
      && (r != Succeeded ==> after == accounts)
      && (forall k :: 0 <= k < |accounts| && FindAccount(accounts, id, email, malformedId) != Ok(Some(k)) ==> after[k] == accounts[k])
  {
  }

  /** Revoking touches one row, and only its token; consistency is kept. */
  lemma RevokeTouchesOneRow(accounts: seq<Account>, adminToken: Option<string>, storedAdminToken: Option<string>,
                            id: Option<string>, email: Option<string>, malformedId: bool)
    requires forall k :: 0 <= k < |accounts| ==> Consistent(accounts[k])
    ensures var (r, after) := Revoke(accounts, adminToken, storedAdminToken, id, email, malformedId);
      && |after| == |accounts|
      && (forall k :: 0 <= k < |after| ==> Consistent(after[k]) && after[k].id == accounts[k].id && after[k].email == accounts[k].email)
      && (r != Succeeded ==> after == accounts)
      && (forall k :: 0 <= k < |accounts| && FindAccount(accounts, id, email, malformedId) != Ok(Some(k)) ==> after[k] == accounts[k])
      && (r == Succeeded ==> var i := FindAccount(accounts, id, email, malformedId).value.value;
            after[i].accessToken == None && after[i].tokenStatus == Some(Revoked))
  {
  }

  /** A successful grant leaves the user with the generated token, active. */
  lemma GrantGivesToken(accounts: seq<Account>, adminToken: Option<string>, id: Option<string>, email: Option<string>,
                        malformedId: bool, confirmed: bool, generated: string)
    requires Grant(accounts, adminToken, adminToken, id, email, malformedId, confirmed, generated).0 == Succeeded
    ensures var i := FindAccount(accounts, id, email, malformedId).value.value;
      var after := Grant(accounts, adminToken, adminToken, id, email, malformedId, confirmed, generated).1;
      && !TruthyStr(accounts[i].accessToken)
      && after[i].accessToken == Some(generated) && after[i].tokenStatus == Some(Active)
  {
  }

  /** Revoking twice: the second revocation finds no active token and exits with status 1. */
  lemma SecondRevokeFails(accounts: seq<Account>, adminToken: Option<string>, id: Option<string>,
                          email: Option<string>, malformedId: bool)
    requires Revoke(accounts, adminToken, adminToken, id, email, malformedId).0 == Succeeded
    ensures var after := Revoke(accounts, adminToken, adminToken, id, email, malformedId).1;
      var r := Revoke(after, adminToken, adminToken, id, email, malformedId).0;
      r.Exited? && r.status == 1
  {
    var after := Revoke(accounts, adminToken, adminToken, id, email, malformedId).1;
    MatchingIgnoresTokens(accounts, after, UserCriteria(id, email), 0);
  }

  /** Granting twice: the second grant finds the active token and exits with status 1. */
  lemma SecondGrantFails(accounts: seq<Account>, adminToken: Option<string>, id: Option<string>, email: Option<string>,
                         malformedId: bool, confirmed: bool, generated: string, again: string)
    requires generated != ""
    requires Grant(accounts, adminToken, adminToken, id, email, malformedId, confirmed, generated).0 == Succeeded
    ensures var after := Grant(accounts, adminToken, adminToken, id, email, malformedId, confirmed, generated).1;
      var r := Grant(after, adminToken, adminToken, id, email, malformedId, confirmed, again).0;
      r.Exited? && r.status == 1
  {
    var after := Grant(accounts, adminToken, adminToken, id, email, malformedId, confirmed, generated).1;
    MatchingIgnoresTokens(accounts, after, UserCriteria(id, email), 0);
  }

  /** After a revocation, a confirmed grant gives the user a token again. */
  lemma GrantAfterRevoke(accounts: seq<Account>, adminToken: Option<string>, id: Option<string>, email: Option<string>,
                         malformedId: bool, generated: string)
    requires Revoke(accounts, adminToken, adminToken, id, email, malformedId).0 == Succeeded
    ensures var after := Revoke(accounts, adminToken, adminToken, id, email, malformedId).1;
      Grant(after, adminToken, adminToken, id, email, malformedId, true, generated).0 == Succeeded
  {
    var after := Revoke(accounts, adminToken, adminToken, id, email, malformedId).1;
    MatchingIgnoresTokens(accounts, after, UserCriteria(id, email), 0);
  }


  /** The administrator's view of the users table. */
  class AccountTable {
    var accounts: seq<Account>

    constructor (accounts: seq<Account>)
      ensures this.accounts == accounts
    {
      this.accounts := accounts;
    }

    /** `token-grant`. */
    method TokenGrant(adminToken: Option<string>, storedAdminToken: Option<string>, id: Option<string>,
                      email: Option<string>, malformedId: bool, confirmed: bool, generated: string)
      returns (result: CommandResult)
      modifies this
      ensures (result, accounts) == Grant(old(accounts), adminToken, storedAdminToken, id, email, malformedId, confirmed, generated)
    {
      if adminToken != storedAdminToken {
        return Reported(GrantFailed);
      }
      var found := FindAccount(accounts, id, email, malformedId);
      if found.Err? {
        return Reported(GrantFailed);
      }
      if found.value.None? {
        return Exited(1, NoSuchUserMessage(NameGiven(id, email)));
      }
      var i := found.value.value;
      var a := accounts[i];
      if TruthyStr(a.accessToken) {
        return Exited(1, HasTokenMessage(a));
      }
      if (a.tokenStatus.None? || a.tokenStatus == Some(Revoked)) && !confirmed {
        return Reported(GrantAborted);
      }
      accounts := accounts[i := a.(accessToken := Some(generated), tokenStatus := Some(Active))];
      result := Succeeded;
    }

    /** `token-revoke`. */
    method TokenRevoke(adminToken: Option<string>, storedAdminToken: Option<string>, id: Option<string>,
                       email: Option<string>, malformedId: bool)
      returns (result: CommandResult)
      modifies this
      ensures (result, accounts) == Revoke(old(accounts), adminToken, storedAdminToken, id, email, malformedId)
    {
      if adminToken != storedAdminToken {
        return Reported(RevokeFailed);
      }
      var found := FindAccount(accounts, id, email, malformedId);
      if found.Err? {
        return Reported(RevokeFailed);
      }
      if found.value.None? {
        return Exited(1, NoSuchUserMessage(NameGiven(id, email)));
      }
      var i := found.value.value;
      var a := accounts[i];
      if !TruthyStr(a.accessToken) {
        return Exited(1, NoTokenMessage(a));
      }
      accounts := accounts[i := a.(accessToken := None, tokenStatus := Some(Revoked))];
      result := Succeeded;
    }
  }
}
