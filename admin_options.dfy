// The option wrappers shared by the administrator commands: the admin token,
// the user selected by `--email` or `--id`, and the workflow selected by `--workflow`.
module AdminOptions {
  import opened Wrappers
  import opened Utils

  /** How a wrapped command ends: an exit with a message, a crash, or a run with the looked-up value. */
  datatype CliOutcome<T> = Exit(status: int, message: string) | Crash | Run(value: T)

  /**
   * `admin_access_token_option`; `validate` is `_validate_admin_access_token`,
   * giving the message of the `ValueError` it raises.
   */
  function AdminAccessTokenOption(token: Option<string>, validate: Option<string> -> Option<string>): (o: CliOutcome<()>)
    ensures o.Run? <==> validate(token).None?
    ensures o.Exit? ==> o == Exit(1, validate(token).value)
  {
    match validate(token)
    case Some(m) => Exit(1, m)
    case None => Run(())
  }

  /**
   * `add_user_options`: the user named by `--id` or `--email`, or no user when
   * neither is given. The options are tested against `None`, while the lookup
   * tests them for truthiness.
   */
  function AddUserOptions(email: Option<string>, id: Option<string>, users: seq<User>, malformedId: bool)
    : CliOutcome<Option<User>>
  {
    if id.Some? && email.Some? then Exit(1, "Cannot provide --email and --id at the same time.")
    else if id.None? && email.None? then Run(None)
    else match GetUserByCriteria(users, id, email, malformedId)
      case Err(_) => Crash
      case Ok(None) => Exit(1, "User not found.")
      case Ok(Some(u)) => Run(Some(u))
  }

  /** Giving both options ends the command before any lookup. */
  lemma BothOptionsRejected(email: string, id: string, users: seq<User>, malformedId: bool)
    ensures AddUserOptions(Some(email), Some(id), users, malformedId).Exit?
    ensures AddUserOptions(Some(email), Some(id), users, malformedId) == AddUserOptions(Some(email), Some(id), [], false)
  {
  }

  /**
   * The command runs with no user exactly when neither option is given, and
   * with a user only when it is the one row the given id or email selects.
   */
  lemma UserOptionOutcomes(email: Option<string>, id: Option<string>, users: seq<User>, malformedId: bool)
    ensures AddUserOptions(email, id, users, malformedId) == Run(None) <==> email.None? && id.None?
    ensures var o := AddUserOptions(email, id, users, malformedId);
      o.Run? && o.value.Some? ==>
        && (id.Some? <==> email.None?)
        && o.value.value in users
        && (TruthyStr(id) ==> o.value.value.id == id.value)
        && (TruthyStr(email) ==> o.value.value.email == email.value)
  {
    var o := AddUserOptions(email, id, users, malformedId);
    if o.Run? && o.value.Some? {
      FoundUserMatches(users, id, email, malformedId);
    }
  }

  /**
   * An empty `--email ""` passes the `None` test but not the lookup's
   * truthiness test, so it selects whichever user the table holds alone.
   */
  lemma EmptyEmailSelectsSoleUser(u: User)
    ensures AddUserOptions(Some(""), None, [u], false) == Run(Some(u))
  {
    assert UserCriteria(None, Some("")) == map[];
    assert MatchingUsers([u], map[]) == [u];
  }

  /**
   * `add_workflow_option`: no workflow when `--workflow` is not given;
   * otherwise the id must be a UUID version 4 before `lookup` is asked.
   */
  function AddWorkflowOption<W>(workflowUuid: Option<string>, lookup: string -> Option<W>): (o: CliOutcome<Option<W>>)
    ensures workflowUuid.None? ==> o == Run(None)
    ensures workflowUuid.Some? && !IsUuidV4(workflowUuid.value) ==> o == Exit(1, "Invalid workflow UUID.")
    ensures o.Run? && o.value.Some? ==>
      workflowUuid.Some? && IsUuidV4(workflowUuid.value) && lookup(workflowUuid.value) == o.value
    ensures workflowUuid.Some? && IsUuidV4(workflowUuid.value) && lookup(workflowUuid.value).None? ==>
      o == Exit(1, "Workflow not found.")
    ensures !o.Crash?
  {
    match workflowUuid
    case None => Run(None)
    case Some(id) =>
      if !IsUuidV4(id) then Exit(1, "Invalid workflow UUID.")
      else match lookup(id)
        case None => Exit(1, "Workflow not found.")
        case Some(w) => Run(Some(w))
  }

  /** A malformed id is turned away whatever the table holds. */
  lemma MalformedWorkflowIdNeverLooked<W>(id: string, lookup1: string -> Option<W>, lookup2: string -> Option<W>)
    requires !IsUuidV4(id)
    ensures AddWorkflowOption(Some(id), lookup1) == AddWorkflowOption(Some(id), lookup2)
  {
  }
}
