// The administrator command line: the argument checks of `queue-consume`,
// the quota-usage listing and status table, granting and revoking access
// tokens, setting quota limits, and applying pending retention rules.
module AdminCli {
  import opened Wrappers

  /** How a command ends: success, `sys.exit(status)` after a message, or an error printed by an `except` (status 0). */
  datatype CommandResult = Succeeded | Exited(status: int, message: string) | Reported(context: string)

  function ExitStatus(r: CommandResult): int
  {
    match r
    case Succeeded => 0
    case Exited(s, _) => s
    case Reported(_) => 0
  }

  // ---------------------------------------------------------------------
  // queue-consume

  /** The argument checks of `queue-consume`; `None` lets the consumer start. */
  function QueueConsumeArguments(queueName: string, key: Option<string>, valuesToDelete: seq<string>, interactive: bool)
    : (r: Option<CommandResult>)
    ensures r.None? <==> (key.Some? || interactive) && (!TruthyStr(key) || valuesToDelete != [])
    ensures r.Some? ==> r.value.Exited? && r.value.status == 1
  {
    if key.None? && !interactive then Some(Exited(1, NoFilterMessage))
    else if TruthyStr(key) && valuesToDelete == [] then Some(Exited(1, NoValuesMessage(queueName)))
    else None
  }

  const NoFilterMessage := "Please provide -k (with -v) or -i options. These options can be used together or separately."
  const NoValuesPrefix := "Please provide a list of property values (using the '-v' option) to filter the messages that need to be removed from the "
  const QueueSuffix := " queue."

  function NoValuesMessage(queueName: string): string
  {
    NoValuesPrefix + queueName + QueueSuffix
  }
}
