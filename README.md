# reana-server, modelled in Dafny

This project models the decision logic of `reana-server`. That is the REANA web server, its
queue consumers and its admin command line. The model leaves out the HTTP, queue, Kubernetes,
database and file-system I/O around that logic. Every module below matches one source file and
states what that file's code decides:

- `Fetcher` (`reana_server/fetcher.py`): parsing a workflow URL, and checking its scheme and
  spec extension. The GitHub and GitLab route matching and the fixed dispatch order to the
  Git, Zip or Yaml fetchers. Workflow-name generation and cleaning, spec-path discovery with
  the containment check, and the byte count against the download size limit.
- `Scheduler` (`reana_server/scheduler.py`): the queue consumer that acknowledges each
  submission, tries to start the workflow when the system is ready and re-publishes it when
  it is not ready or could not be started, unless the workflow controller answered that the
  workflow does not exist.
- `Consumer` (`reana_server/reana_admin/consumer.py`): the queue-cleaning consumer, with
  delete, keep or stop, then ack or reject. The interactive prompt loop, and the collecting
  consumer that gathers bodies by key and always re-queues.
- `CheckWorkflows` (`reana_server/reana_admin/check_workflows.py`): the pod checks for each
  status, the in-sync and out-of-sync partition, interactive-session checks and the
  workspace audit.
- `FileTree`, `Deleter`, `DeleterCases` (`reana_server/deleter.py`): recursive deletion over
  an abstract workspace tree that preserves declared inputs and outputs. It also covers the
  cases of the deleter's own parametrised test.
- `Retention` (`reana_server/reana_admin/retention_rule_deleter.py`): the retention-rule
  deleter, which keeps inputs and outputs, never leaves the workspace and removes only
  directories that are empty.
- `Utils` (`reana_server/utils.py`): the UUIDv4 check and the usage percentage. The password
  and e-mail validators, user-criteria precedence, the webhook search, the push and
  merge-request branch selection, and the request-stream length.
- `Quota` (`reana_server/rest/quota.py`) and `Decorators` (`reana_server/decorators.py`):
  the guard chains of the quota endpoints, `signin_required` and `check_quota`.
- `AdminOptions`, `AdminCli`, `AdminUsage`, `AdminTable`, `AdminTokens`, `AdminQuotaSet` and
  `AdminRetention` (`reana_server/reana_admin/options.py`, `reana_server/reana_admin/cli.py`):
  the option guards of the admin commands and the checks of `queue-consume`. Quota-usage
  health and its stable sort, the quota table's column widths, token grant and revoke,
  `quota-set` and `retention-rules-apply`.
- `GitLabClient` (`reana_server/gitlab_client.py`): URL building through `str.format` and
  `quote_plus`, mapping status codes to exceptions, pagination, and the shape of every
  endpoint's request.
- `Status` (`reana_server/status.py`): trimming command output, and parsing `du` and `df`.
- `OpenApiChecker` (`scripts/openapi_checker.py`): the syntax-tree visitor, which records
  called operations, returned codes and `signin_required`. The search for an operation's
  codes, and the comparison of the codes a view can return with those its specification
  documents.
- Helper modules: `Wrappers` (Option and Result), `Text` (Python's `split`, `strip` and
  padding), `Paths` (`pathlib` parts and `is_relative_to`), and `Ordering` (`sorted` on
  paths).

The code's I/O becomes parameters. That covers HTTP answers, what the queue returns, pod
lists, query results, the file system (`realpath`, `isfile`, directory listings), `subprocess`
output, and the answers typed at a prompt. Two library functions become parameters,
each with the semantics it is given here: `quote_plus` and `secrets.token_urlsafe`. So do
four helpers of the repository itself whose definitions are not part of this model:
`_set_quota_limit` and `_validate_admin_access_token` of `reana_server.utils`, and the
settings `REGEX_CHARS_TO_REPLACE` and `WORKFLOW_SPEC_FILENAMES` of `reana_server.config`.

## Model

| member | source | states |
|---|---|---|
| Ordering.SortSet | reana_server/reana_admin/check_workflows.py:359 | `sorted` of a set of paths is strictly increasing and holds exactly the set's paths |
| Ordering.SortedUnique | reana_server/reana_admin/check_workflows.py:359 | there is only one increasing sequence of a set of paths, so the order of the set's iteration does not matter |
| Ordering.SortPaths | reana_server/reana_admin/check_workflows.py:359 | the loop that repeatedly takes out the least path produces the sorted sequence of the set |
| Scheduler.WorkflowExecutionScheduler.constructor | reana_server/scheduler.py:32-35 | a new scheduler has published, called and acknowledged nothing |
| Scheduler.RequeueEvents | reana_server/scheduler.py:42-67 | re-queueing publishes exactly once when the user, workflow and parameters are all present and never otherwise, never calls the controller and never acknowledges; a missing key (`KeyError`) is swallowed |
| Scheduler.Forwarded | reana_server/scheduler.py:76 | the forwarded submission has `status` set to `start` and every other field unchanged |
| Scheduler.WorkflowExecutionScheduler.RequeueWorkflow | reana_server/scheduler.py:42-67 | appends exactly the re-queue events of the submission to the event log |
| Scheduler.WorkflowExecutionScheduler.OnMessage | reana_server/scheduler.py:69-113 | appends the handler's trace to the event log and raises exactly when the body is not a JSON object, or, when not ready, lacks `workflow_id_or_name` |
| Scheduler.Trace | reana_server/scheduler.py:69-113 | the effects of one message; `AckFirst`, `UndecodableDropped`, `NotReadyRequeuesOnce`, `ReadyCallsOnce`, `ReadyRequeuesUnlessStartedOrMissing` and `RequeueCarriesFields` state them |
| Scheduler.AckFirst | reana_server/scheduler.py:71 | every message is acknowledged first and only once |
| Scheduler.NotReadyRequeuesOnce | reana_server/scheduler.py:73-113 | when the system is not ready the controller is never called and the submission is re-published exactly once |
| Scheduler.ReadyCallsOnce | reana_server/scheduler.py:76-81 | when ready, the controller is called exactly once, with the submission whose status is `start` |
| Scheduler.ReadyRequeuesUnlessStartedOrMissing | reana_server/scheduler.py:83-108 | when ready, the submission is re-published exactly once unless the answer was 200 or `HTTPNotFound`, and then not at all |
| Scheduler.RequeueCarriesFields | reana_server/scheduler.py:50-54 | anything published carries exactly the user, workflow and parameters of the consumed submission |
| Scheduler.UndecodableDropped | reana_server/scheduler.py:71-72 | a body that does not decode is acknowledged and nothing else happens |
| Scheduler.Payload | reana_server/scheduler.py:51-53 | the re-published payload holds the three fields under their own keys |
| Scheduler.RequeueIsStable | reana_server/scheduler.py:50-113 | a re-published payload consumed again while not ready produces the same trace as the original submission |
| Consumer.AnswerDecision | reana_server/reana_admin/consumer.py:78-85 | an answer means delete iff it lower-cases to `yes`/`y`, keep iff `no`/`n`, stop iff `stop`/`s`, and is otherwise not understood |
| Consumer.AnswerCaseInsensitive | reana_server/reana_admin/consumer.py:78-83 | an answer in capitals is read as the same decision |
| Consumer.FirstAnswer | reana_server/reana_admin/consumer.py:74-85 | the index of the first understood answer, with every earlier answer not understood; none when no answer is understood |
| Consumer.AskUser | reana_server/reana_admin/consumer.py:72-85 | re-prompts until an answer is understood and returns its decision and the unread input; when the input runs out first there is no decision |
| Consumer.MessageConsumer.constructor | reana_server/reana_admin/consumer.py:87-116 | a new consumer has not been asked to stop |
| Consumer.MessageConsumer.OnMessage | reana_server/reana_admin/consumer.py:87-116 | with a key, only a body whose value is listed is a delete candidate and a non-matching body is kept without asking; without a key the body is kept unless interactive mode asks; delete acks, keep re-queues, stop sets `should_stop` and touches nothing; a body that is not JSON, or not an object when a key is set, raises |
| Consumer.Tag | reana_server/reana_admin/consumer.py:166-167 | a body is collected exactly when its value under the key is one of the listed strings, and then under that value |
| Consumer.LastTagged | reana_server/reana_admin/consumer.py:162-168 | the last body of a run collected under a value, if any |
| Consumer.LastMessageWins | reana_server/reana_admin/consumer.py:162-168 | after a run of messages a value is collected iff some message carried it, and it holds the last such body |
| Consumer.CollectsOnlyListed | reana_server/reana_admin/consumer.py:167 | only listed values are ever collected |
| Consumer.CollectingConsumer.constructor | reana_server/reana_admin/consumer.py:122-133 | a new collecting consumer holds no messages |
| Consumer.CollectingConsumer.OnIteration | reana_server/reana_admin/consumer.py:146-160 | the consumer is told to stop exactly when the passive declare counts no message, and the collection is unchanged |
| Consumer.CollectingConsumer.OnMessage | reana_server/reana_admin/consumer.py:162-170 | every message is re-queued and never acked; the collection takes one collection step |
| CheckWorkflows.FirstNotReady | reana_server/reana_admin/check_workflows.py:133-136 | some pod has a terminated container iff a name is found, and the name is that of such a pod |
| CheckWorkflows.RunPodCheck | reana_server/reana_admin/check_workflows.py:106-136 | `_pods_exist` fails iff there are no pods, `_pods_dont_exist` iff there are some, `_only_one_pod_exists` iff the count is not 1, `_all_pods_have_phase` iff some pod is in another phase (so it passes on no pods), and the not-ready check iff some container terminated |
| CheckWorkflows.RunCheck | reana_server/reana_admin/check_workflows.py:99-141 | the queue check fails iff the workflow's id is not among the collected messages, the workspace check iff the workspace does not exist, and the pod checks as above |
| CheckWorkflows.PodsNamed | reana_server/reana_admin/check_workflows.py:221-222 | the kept pods are exactly those whose name contains the given part |
| CheckWorkflows.Failures | reana_server/reana_admin/check_workflows.py:224-233 | every check runs: the failure list is empty iff no check fails, and it holds the message of every check that fails |
| CheckWorkflows.FilterWorkflows | reana_server/reana_admin/check_workflows.py:182-191 | the selected workflows are exactly those with a checked status created in the time range, the end being exclusive and optional |
| CheckWorkflows.Partition | reana_server/reana_admin/check_workflows.py:243-246 | the in-sync list holds only results without errors, the out-of-sync list only results with errors, and together they are as long as the input |
| CheckWorkflows.PartitionComplete | reana_server/reana_admin/check_workflows.py:243-246 | every result is placed in the list its errors call for |
| CheckWorkflows.Results | reana_server/reana_admin/check_workflows.py:220-246 | one result per selected workflow |
| CheckWorkflows.SplitResults | reana_server/reana_admin/check_workflows.py:218-248 | the partition of the run's results; `SplitResultsComplete` and `Partition` state it |
| CheckWorkflows.SplitResultsComplete | reana_server/reana_admin/check_workflows.py:218-248 | every selected workflow's result is in the in-sync list when it has no errors and in the out-of-sync list otherwise |
| CheckWorkflows.RunChecks | reana_server/reana_admin/check_workflows.py:224-233 | the inner loop collects exactly the failures of all checks, and the workflow is in sync iff there are none |
| CheckWorkflows.CheckEach | reana_server/reana_admin/check_workflows.py:218-246 | the outer loop builds exactly the partition of the selected workflows' results |
| CheckWorkflows.CheckWorkflows | reana_server/reana_admin/check_workflows.py:177-248 | no selected workflow gives `([], [], 0)` without collecting anything; a failed message collection or pod listing gives its error message; otherwise the partition and the total |
| CheckWorkflows.InSyncIffNoCheckFails | reana_server/reana_admin/check_workflows.py:224-246 | a workflow is in sync iff none of the checks of its status fails on its own pods |
| CheckWorkflows.QueuedIffMessageCollected | reana_server/reana_admin/check_workflows.py:89-103 | with messages collected under `workflow_id_or_name` for the selected ids, a queued workflow passes its queue check iff some message names it |
| CheckWorkflows.FirstFailure | reana_server/reana_admin/check_workflows.py:317-323 | a session's checks stop at the first failure: at most one error, none iff every check passes, and otherwise the error of a check all of whose predecessors pass |
| CheckWorkflows.Orphans | reana_server/reana_admin/check_workflows.py:290-305 | the reported session pods are exactly those whose name contains no session's name |
| CheckWorkflows.SplitSessions | reana_server/reana_admin/check_workflows.py:308-336 | in-sync sessions have no errors, out-of-sync ones exactly one, and together they number the sessions |
| CheckWorkflows.FilterSessions | reana_server/reana_admin/check_workflows.py:270-273 | the checked sessions are exactly those whose status has checks |
| CheckWorkflows.FindOrphans | reana_server/reana_admin/check_workflows.py:291-305 | the first loop finds exactly the orphan session pods, in order |
| CheckWorkflows.RunSessionChecks | reana_server/reana_admin/check_workflows.py:317-323 | the checks of one session up to and including the first failure |
| CheckWorkflows.CheckInteractiveSessions | reana_server/reana_admin/check_workflows.py:259-338 | a failed pod listing gives its error message; otherwise the split of the checked sessions, the orphan pods and the total |
| CheckWorkflows.UserWorkspaces | reana_server/reana_admin/check_workflows.py:344-349 | every workspace found under a user directory has the shape `<users>/<user>/workflows/<workflow>`; a user directory without `workflows` adds nothing |
| CheckWorkflows.DiskWorkspaces | reana_server/reana_admin/check_workflows.py:343-349 | every workspace on disk has the shape `<users>/<user>/workflows/<workflow>` |
| CheckWorkflows.ExtraErrors | reana_server/reana_admin/check_workflows.py:383-389 | an extra workspace carries "not owned" first, and a second error exactly when a workflow with its id exists |
| CheckWorkflows.ExtraResults | reana_server/reana_admin/check_workflows.py:358-391 | one result per extra workspace, in order |
| CheckWorkflows.ExtraWorkspaces | reana_server/reana_admin/check_workflows.py:354-359 | the extra workspaces are exactly those on disk and not in the database, in sorted order |
| CheckWorkflows.CollectWorkspaces | reana_server/reana_admin/check_workflows.py:343-349 | the first loop collects exactly the workspaces on disk |
| CheckWorkflows.ReportExtra | reana_server/reana_admin/check_workflows.py:358-391 | the second loop gives exactly the results of the sorted extra workspaces |
| CheckWorkflows.CheckWorkspaces | reana_server/reana_admin/check_workflows.py:341-393 | the report is exactly one result per workspace on disk that the database does not know, in sorted order |
| FileTree.KeptSurvives | reana_server/deleter.py:87-97 | an entry the keep test accepts survives a deletion started anywhere |
| FileTree.BelowKeptSurvives | reana_server/deleter.py:87-97 | everything below a kept entry survives, since the deletion returns before visiting it |
| FileTree.OutsideUntouched | reana_server/deleter.py:81-117 | a deletion does not touch entries outside the deleted path |
| FileTree.UnkeptRemoved | reana_server/deleter.py:99-111 | an entry with nothing kept at, above or below it inside the deleted path is removed |
| FileTree.AfterDeleteIdempotent | reana_server/deleter.py:103-111 | deleting the same path twice leaves what deleting it once left |
| FileTree.AfterDelete | reana_server/deleter.py:87-116 | the tree after a recursive deletion; `KeptSurvives`, `BelowKeptSurvives`, `OutsideUntouched`, `UnkeptRemoved`, `AfterDeleteValid` and `AfterDeleteIdempotent` state it |
| FileTree.AfterDeleteValid | reana_server/deleter.py:99-116 | deletion leaves a well-formed tree: every prefix of an entry is still a directory |
| FileTree.DirStaysIffChildStays | reana_server/deleter.py:107-115 | after its children are processed, an unkept directory stays exactly when something kept lies below it (an `ENOTEMPTY` removal) |
| FileTree.DeleteEachSiblings | reana_server/deleter.py:101-102 | deleting the children of a directory one after another, in any listing order, deletes each of them from the original tree |
| FileTree.DeleteEachKeeps | reana_server/deleter.py:87-97 | a kept entry survives any run of deletions with its kind unchanged |
| Deleter.IsDeclaredFileIff | reana_server/deleter.py:65-67 | the file loop matches iff some declared file equals the path |
| Deleter.IsUnderDeclaredDirectoryIff | reana_server/deleter.py:68-70 | the directory loop matches iff the path is relative to some declared directory |
| Deleter.KeysToCheck | reana_server/deleter.py:52-60 | the keys checked per mode: `inputs` for inputs and both, `outputs` for outputs and both, none for `NONE` |
| Deleter.AnyDeclaresIff | reana_server/deleter.py:62-71 | the key loop matches iff some selected key declares the path |
| Deleter.IsInputOutputCheck | reana_server/deleter.py:44-71 | `NONE` selects nothing; `INPUTS`, `OUTPUTS` and `INPUTS_OUTPUTS` select exactly the paths equal to a declared file or under a declared directory of their keys |
| Deleter.PreservedIsCheck | reana_server/deleter.py:73-97 | the two tests made before deleting keep exactly what `is_input_output_check` selects for the same mode |
| Deleter.PreservedBelowDirectory | reana_server/deleter.py:68-97 | every path at or below a declared directory is preserved |
| Deleter.Deleter.constructor | reana_server/deleter.py:35-42 | the deleter holds the specification and the workspace it was given |
| Deleter.Deleter.DeleteFiles | reana_server/deleter.py:81-117 | the workspace becomes exactly the recursive-deletion result of the path under the mode's keep test, and stays well formed |
| Deleter.Deleter.DeleteChildren | reana_server/deleter.py:100-102 | the loop over a directory's listing deletes each child from the original tree |
| Deleter.Deleter.DeleteChild | reana_server/deleter.py:101-102 | one turn of that loop deletes one more child |
| Deleter.NothingPreservedDeleted | reana_server/deleter.py:87-97 | a preserved entry and everything below it survive the deletion |
| Deleter.KeepNothingDeletesAll | reana_server/deleter.py:53-111 | with `NONE`, the deleted path and everything below it are gone |
| Deleter.AncestorOfPreservedStays | reana_server/deleter.py:112-115 | a directory holding a preserved entry stays, although it is not itself preserved |
| Deleter.DeleteTwiceHarmless | reana_server/deleter.py:103-111 | repeating a deletion changes nothing |
| DeleterCases.TopLevelDeletion | tests/test_deleter.py:89-91 | deleting every top-level entry in any listing order gives the same tree |
| DeleterCases.FileSurvivesTopLevel | tests/test_deleter.py:89-95 | a file survives iff it or one of the directories above it is kept |
| DeleterCases.DeclaredOne | tests/test_deleter.py:79-86 | with one declared file and one declared directory, a path is declared iff it is the file or lies in the directory |
| DeleterCases.TestKeeps | tests/test_deleter.py:79-86 | what each mode keeps among paths of one or two parts, for the test's declarations |
| DeleterCases.ShallowFileRemains | tests/test_deleter.py:89-95 | a file one or two levels down remains iff it or its top-level directory is kept |
| DeleterCases.CaseHolds | tests/test_deleter.py:65-95 | the shared argument of the test cases: the expected files are what remains |
| DeleterCases.KeepInputsOutputsCase | tests/test_deleter.py:20-29 | keeping inputs and outputs leaves both input files and the output file |
| DeleterCases.KeepInputsCase | tests/test_deleter.py:30-40 | keeping inputs leaves the two inputs and `input.txt` |
| DeleterCases.KeepOutputsCase | tests/test_deleter.py:41-50 | keeping outputs leaves only the output file |
| DeleterCases.KeepNothingCase | tests/test_deleter.py:51-62 | keeping nothing leaves no file |
| DeleterCases.TestNamesDistinct | tests/test_deleter.py:20-62 | the test's file names meet the distinctness the cases rely on |
| Retention.IsWorkspaceFile | reana_server/reana_admin/retention_rule_deleter.py:42-44 | the file loop matches iff the path is `workspace / file` for some declared file |
| Retention.IsInWorkspaceDirectory | reana_server/reana_admin/retention_rule_deleter.py:45-47 | the directory loop matches iff the path is relative to `workspace / directory` for some declared directory |
| Retention.IsInputOutput | reana_server/reana_admin/retention_rule_deleter.py:34-48 | a path is an input or output iff the inputs or the outputs declare it, by file or by directory |
| Retention.AnyDeclaredIn | reana_server/reana_admin/retention_rule_deleter.py:39-48 | the key loop matches iff some key declares the path |
| Retention.RetentionRuleDeleter.constructor | reana_server/reana_admin/retention_rule_deleter.py:23-32 | the deleter holds the rule's specification, workspace and file system |
| Retention.RetentionRuleDeleter.DeleteKeepingInputsOutputs | reana_server/reana_admin/retention_rule_deleter.py:57-74 | the file system becomes exactly the recursive-deletion result of the path, with paths outside the resolved workspace and inputs and outputs kept with their subtrees, and stays well formed |
| Retention.RetentionRuleDeleter.DeleteChildren | reana_server/reana_admin/retention_rule_deleter.py:70-71 | the loop over a directory's children deletes each child from the original tree |
| Retention.RetentionRuleDeleter.DeleteChild | reana_server/reana_admin/retention_rule_deleter.py:70-71 | one turn of that loop deletes one more child |
| Retention.RetentionRuleDeleter.ApplyRule | reana_server/reana_admin/retention_rule_deleter.py:76-87 | the matches are deleted in turn, a match that no longer exists being skipped |
| Retention.OutsideNeverTouched | reana_server/reana_admin/retention_rule_deleter.py:50-63 | a path outside the workspace once resolved is never touched by a rule |
| Retention.InputsOutputsNeverDeleted | reana_server/reana_admin/retention_rule_deleter.py:64-65 | a declared input or output is never deleted by a rule |
| Retention.DeclaredDirectorySubtree | reana_server/reana_admin/retention_rule_deleter.py:45-47 | everything below a declared directory is an input or output in turn |
| Retention.KeptSubtreeStays | reana_server/reana_admin/retention_rule_deleter.py:62-65 | everything below a kept path stays with it |
| Retention.WhatAMatchRemoves | reana_server/reana_admin/retention_rule_deleter.py:66-74 | with nothing kept on the way down to it, a file or link is unlinked, and a directory stays exactly when something below it is kept |
| Retention.DeclaredAgrees | reana_server/reana_admin/retention_rule_deleter.py:42-47 | for relative names, `workspace / name` declares a path inside the workspace exactly as the name declares the relative path |
| Retention.AgreesWithDeleter | reana_server/reana_admin/retention_rule_deleter.py:34-48 | the retention rule and the workspace deleter in `INPUTS_OUTPUTS` mode agree on what is an input or output |
| Utils.HexChar | reana_server/utils.py:48-56 | a nibble value is rendered as the lower-case hex digit that reads back as it |
| Utils.RemoveAll | reana_server/utils.py:56 | `replace(pat, "")` leaves a string without the pattern's characters unchanged |
| Utils.ForceVersion4 | reana_server/utils.py:52 | `UUID(..., version=4)` yields 32 lower-case digits with version 4 and the RFC 4122 variant, every other digit kept up to case |
| Utils.ForceVersion4Canonical | reana_server/utils.py:52-56 | a string already in that form is left as it is |
| Utils.UuidVersion4Hex | reana_server/utils.py:51-54 | whenever the constructor succeeds, its `hex` is in canonical version-4 form |
| Utils.IsUuidV4 | reana_server/utils.py:48-56 | `is_uuid_v4` holds exactly when the string, its dashes dropped, is 32 lower-case hex digits with version 4 and variant 8, 9, a or b |
| Utils.UuidOfCanonical | reana_server/utils.py:51-56 | such a string parses, and its `hex` equals the string with its dashes dropped |
| Utils.UpperCaseRejected | reana_server/utils.py:56 | an upper-case hex digit makes the test fail |
| Utils.UsagePercentage | reana_server/utils.py:80-84 | a zero limit gives the empty string; any other limit gives the rendered ratio |
| Utils.ValidatePassword | reana_server/utils.py:374-378 | the value passes, unchanged, iff it has at least six characters, and exits with status 1 otherwise |
| Utils.DomainChars | reana_server/utils.py:382 | a matching domain has one dot, with two or three word characters after it |
| Utils.EmailShape | reana_server/utils.py:382 | a matching address has a single `@` with at least two characters before it, a single dot after it, and nothing but word characters, dots and `@` |
| Utils.LocalPartIn | reana_server/utils.py:382 | the part before `@` is at least two characters of lower-case letters, digits, one dot or underscore |
| Utils.DomainIn | reana_server/utils.py:382 | the part after `@` holds exactly one dot |
| Utils.NewlineAfterAddress | reana_server/utils.py:381-386 | an address followed by a newline passes the check as written, though it does not match the whole pattern |
| Utils.TrailingNewlineAccepted | reana_server/utils.py:381-386 | `ab@cd.ef` followed by a newline is accepted |
| Utils.EmailHasNoNewline | reana_server/utils.py:382 | no address matching the whole pattern holds a newline |
| Utils.ValidateEmailAsWritten | reana_server/utils.py:381-386 | `_validate_email` as written: the value passes, unchanged, iff `re.search` with `^…$` finds it, and exits with status 1 otherwise |
| Utils.ValidateEmail | reana_server/utils.py:381-386 | the intended check: the value passes iff all of it is an address, and then holds no newline |
| Utils.EmailChecksAgree | reana_server/utils.py:381-386 | without a final newline, the check as written and the intended one agree |
| Utils.UserCriteria | reana_server/utils.py:360-366 | the filter holds the id when one is given, otherwise the email when given, otherwise nothing |
| Utils.MatchingUsers | reana_server/utils.py:367 | the rows `filter_by` returns are exactly the rows satisfying the criteria |
| Utils.GetUserByCriteria | reana_server/utils.py:360-371 | no user for a malformed id or no match, the single match when there is one, and `MultipleResultsFound` when several match |
| Utils.IdTakesPrecedence | reana_server/utils.py:363-366 | given an id, the email plays no part |
| Utils.FoundUserMatches | reana_server/utils.py:360-369 | a user found by id has that id, and one found by email has that email |
| Utils.NewUserParameters | reana_server/utils.py:105-114 | a wrong admin token is refused; otherwise the new user gets the email and the given token, or the generated one when none is given |
| Utils.NewUserHasToken | reana_server/utils.py:111-112 | a new user never ends up with an empty token |
| Utils.Lookup | reana_server/utils.py:233-239 | the nested lookup fails only with a missing key, and no keys give the data itself |
| Utils.BranchOnlyForKnownKinds | reana_server/utils.py:233-239 | only push and merge request events yield a branch |
| Utils.PushReadsDefaultBranch | reana_server/utils.py:233-235 | a push is read from the project's default branch and the checked-out commit |
| Utils.MergeRequestReadsSourceBranch | reana_server/utils.py:236-238 | a merge request is read from its source branch and its last commit |
| Utils.FirstHookId | reana_server/utils.py:273-298 | the id of the first hook whose url is the create-workflow URL, none when no hook has it, and a missing key when a hook lacks one |
| Utils.NoUrlNoHook | reana_server/utils.py:289-297 | with an empty create-workflow URL no hook is recognised |
| Utils.RequestStreamWithLen.constructor | reana_server/utils.py:321-323 | the wrapper holds the stream it was given |
| Utils.RequestStreamWithLen.Length | reana_server/utils.py:329-333 | the length is the stream's limit, and 0 when the stream has none |
| Quota.CheckSecret | reana_server/rest/quota.py:31-40 | the request gets through iff a secret is configured and the header equals it; otherwise 403 when none is configured, 401 when it differs |
| Quota.CountGiven | reana_server/rest/quota.py:221 | the number of truthy criteria is at most their number, and zero iff none is truthy |
| Quota.GetQuota | reana_server/rest/quota.py:43-75 | no user found is a 404, an unknown resource type a 400, and otherwise a 200 with that user's raw limit and usage of the resource |
| Quota.GetQuotaUsage | reana_server/rest/quota.py:206-253 | an error reply carries neither a limit nor a usage, and a 200 carries both; `GetAnswersIff` and `GetErrorStatuses` say when each reply is given |
| Quota.SecretCheckedFirst | reana_server/rest/quota.py:206-381 | both endpoints answer a failed secret check with that check's reply before anything else is looked at |
| Quota.GetAnswersIff | reana_server/rest/quota.py:206-253 | the usage endpoint answers 200 iff the secret matches, exactly one user criterion is given, the resource type is known, a user is found and it has a usage; the answer is that usage with its limit or -1 |
| Quota.GetErrorStatuses | reana_server/rest/quota.py:216-245 | a wrong number of criteria and a missing resource type are 400s, and a missing user is the 404 `User not found.` |
| Quota.SetQuotaLimitAsWritten | reana_server/rest/quota.py:379-415 | the POST handler as written: an error reply carries no limit and no usage, and a 200 says `OK` with a limit; `AsWrittenRefusesOnlyBoth` and `NoUserAcceptedAsWritten` give its guard |
| Quota.AsWrittenRefusesOnlyBoth | reana_server/rest/quota.py:393-407 | as written, the user guard refuses exactly the valid bodies naming both a user id and an email, and passes every other one on to the setter |
| Quota.SetAndReport | reana_server/rest/quota.py:400-415 | a setter's failure is answered with its own message and status; a 200 echoes the requested limit with `OK`, and needs a found user and a known resource type |
| Quota.NoUserAcceptedAsWritten | reana_server/rest/quota.py:393-415 | as written, a body naming no user at all is accepted and reports the usage of whichever user the unfiltered query returns |
| Quota.SetQuotaLimit | reana_server/rest/quota.py:379-415 | the POST handler as its message intends: an error reply carries no limit and no usage, and a 200 says `OK` with a limit; `SetAnswersOnlyForOneUser` and `SetAnswersForOneUser` say exactly when it answers 200 |
| Quota.SetAnswersOnlyForOneUser | reana_server/rest/quota.py:379-415 | the corrected setter answers 200 only with the secret, a valid body naming exactly one user that is found, a known resource type, and echoes the requested limit |
| Quota.SetAnswersForOneUser | reana_server/rest/quota.py:379-415 | conversely, the secret, a valid body naming exactly one user, a limit the setter accepts, a known resource type and a found user give a 200 with `OK`, the requested limit and that user's usage |
| Quota.SetVersionsAgree | reana_server/rest/quota.py:393-415 | wherever the body names a user, the corrected setter and the one as written answer alike |
| Decorators.CredentialOf | reana_server/decorators.py:33-39 | the session comes first, then the GitLab header only when GitLab logins are accepted, then the `access_token` argument; none when the request has none of them |
| Decorators.EndpointGetsSignedInUser | reana_server/decorators.py:26-48 | the endpoint runs only for the user its credential names, and, when a token is required, only for a user with an active token |
| Decorators.RefusalStatuses | reana_server/decorators.py:40-46 | every refusal is a 401 or a 403, and a 401 says the user is not signed in or has no active tokens |
| Decorators.NoCredentialRefused | reana_server/decorators.py:34-41 | a request without any credential is refused with 401 |
| Decorators.SessionTakesPrecedence | reana_server/decorators.py:34-35 | with a signed-in session the tokens the request carries play no part |
| Decorators.GitlabHeaderIgnoredUnlessEnabled | reana_server/decorators.py:36-37 | the GitLab header is ignored unless GitLab logins are accepted |
| Decorators.CheckQuota | reana_server/decorators.py:55-73 | the endpoint runs, with the given user, iff a user is given and is within quota; an exceeded quota is a 403 with the excess message and any other failure a 500 |
| Decorators.LaunchGuarded | reana_server/decorators.py:26-73 | the doubly guarded endpoint runs only for a signed-in user with an active token who is within quota |
| Fetcher.UrlSplit | reana_server/fetcher.py:52 | `urlparse` leaves the query and fragment out of the path, and the network location holds no delimiter |
| Fetcher.Hostname | reana_server/fetcher.py:58 | the host name, when there is one, is not empty |
| Fetcher.HostOf | reana_server/fetcher.py:58 | the host inside the brackets holds no `]`; an unbracketed host is a prefix of the location and holds no port separator |
| Fetcher.BracketedHost | reana_server/fetcher.py:58 | user information absent, `[addr]:port` has the lower-cased host `addr`: brackets and port dropped |
| Fetcher.Parse | reana_server/fetcher.py:46-60 | a parsed URL keeps the original URL, its path has no trailing slash, and the basename is slash-free and split into stem and extension |
| Fetcher.TrailingSlashIrrelevant | reana_server/fetcher.py:53 | a slash appended to a URL without query or fragment changes no component the fetcher reads |
| Fetcher.ReplaceRuns | reana_server/fetcher.py:99 | the substitution is empty iff its input is, and a replaced first character becomes a dash |
| Fetcher.ReplaceRunsShape | reana_server/fetcher.py:99 | after the substitution no replaced character is left but the dash, and no two dashes of the replaced class meet |
| Fetcher.Clean | reana_server/fetcher.py:93-99 | `_clean_workflow_name`; `CleanIsClean` and `CleanIdempotent` state what a cleaned name is |
| Fetcher.CleanIsClean | reana_server/fetcher.py:93-99 | a cleaned name never starts or ends with a dash and holds no replaced character |
| Fetcher.CleanIdempotent | reana_server/fetcher.py:93-99 | cleaning a cleaned name changes nothing |
| Fetcher.MakeZip | reana_server/fetcher.py:314-335 | a Zip fetcher fixes, when built, the cleaned name given, or else the cleaned stem of the archive |
| Fetcher.GenerateWorkflowName | reana_server/fetcher.py:260-371 | the generated names; `GeneratedNameIsClean`, `GitNameWithRef`, `YamlName` and `MakeZip` state them |
| Fetcher.GeneratedNameIsClean | reana_server/fetcher.py:260-371 | the name every fetcher generates is a cleaned name |
| Fetcher.GitNameWithRef | reana_server/fetcher.py:260-273 | a Git fetcher's name is the cleaned repository name, with `-<ref>` appended only when a ref is given |
| Fetcher.YamlName | reana_server/fetcher.py:292-308 | a standard specification file is named after its cleaned directory, unless that is empty; any other after directory and stem |
| Fetcher.RepositoryRoute | reana_server/fetcher.py:411-453 | a repository route binds no ref and no archive path, and a `.git` suffix is not part of the repository name |
| Fetcher.FirstMarker | reana_server/fetcher.py:454-455 | the first `-/tree` or `-/archive` marker with something after it is found, and there is none before it |
| Fetcher.MatchOfPath | reana_server/fetcher.py:374-390 | both routers read proper segments back from the path built of them |
| Fetcher.GitHubTreeRoute | reana_server/fetcher.py:413 | `/<user>/<repo>/tree/<ref>` binds the ref, slashes included |
| Fetcher.GitHubArchiveRoute | reana_server/fetcher.py:414 | `/<user>/<repo>/archive/<path>` binds the archive path |
| Fetcher.GitHubRepositoryRoute | reana_server/fetcher.py:411-412 | `/<user>/<repo>` and `/<user>/<repo>.git` are repository routes |
| Fetcher.GitSuffixDropped | reana_server/fetcher.py:412 | the `.git` suffix is dropped from the repository name |
| Fetcher.GitHubOtherShapesRejected | reana_server/fetcher.py:386-416 | any other shape of GitHub path matches no rule |
| Fetcher.GitLabMarkerRoute | reana_server/fetcher.py:452-456 | the GitLab user may span several segments before `/-/tree/<ref>` or `/-/archive/<path>` |
| Fetcher.GitLabRepositoryRoute | reana_server/fetcher.py:452-453 | without a marker, the last GitLab segment is the repository and the others the user |
| Fetcher.GitHubInvalidIffUnmatched | reana_server/fetcher.py:386-430 | a GitHub URL is rejected, with the host in the message, exactly when no GitHub rule matches |
| Fetcher.GitHubArchiveFetcher | reana_server/fetcher.py:421-425 | a GitHub archive keeps its URL and names the workflow after the repository and the archive's stem |
| Fetcher.GitHubCloneFetcher | reana_server/fetcher.py:426-430 | any other GitHub route clones `https://github.com/<user>/<repo>.git` at the matched ref |
| Fetcher.GitLabInvalidIffUnmatched | reana_server/fetcher.py:386-473 | a GitLab URL is rejected exactly when no GitLab rule matches |
| Fetcher.GitLabArchiveFetcher | reana_server/fetcher.py:464-468 | a GitLab archive keeps its URL and names the workflow after the archive's stem |
| Fetcher.GitLabCloneFetcher | reana_server/fetcher.py:469-473 | any other GitLab route clones from the same host at the matched ref |
| Fetcher.GetFetcher | reana_server/fetcher.py:476-514 | `get_fetcher`; `SchemeCheckedFirst`, `SpecExtensionChecked`, `DispatchGitHubFirst`, `DispatchGitLabSecond`, `DispatchByExtension` and `GetFetcherNameIsClean` state its choices |
| Fetcher.Dispatch | reana_server/fetcher.py:486-514 | the dispatch order once the URL is parsed; `DispatchNameIsFixed` and `DispatchNameIsClean` state the names of what it returns |
| Fetcher.SchemeCheckedFirst | reana_server/fetcher.py:486-489 | a scheme that is not allowed is rejected before anything else |
| Fetcher.SpecExtensionChecked | reana_server/fetcher.py:491-496 | a specification argument with an unknown extension is rejected whatever the URL |
| Fetcher.DispatchGitHubFirst | reana_server/fetcher.py:498-499 | a URL whose network location is `github.com` goes to the GitHub rules |
| Fetcher.DispatchGitLabSecond | reana_server/fetcher.py:500-501 | an allowed GitLab host goes to the GitLab rules |
| Fetcher.DispatchByExtension | reana_server/fetcher.py:502-514 | on other hosts a `.git` URL gives a Git fetcher, a `.zip` URL a Zip fetcher, a specification file a Yaml fetcher unless a specification is also given, and anything else is refused |
| Fetcher.GetFetcherNameIsClean | reana_server/fetcher.py:476-514 | every fetcher `get_fetcher` returns generates a cleaned name |
| Fetcher.InsideIffAncestor | reana_server/fetcher.py:175-183 | the containment check holds exactly when the real output directory is an ancestor of the real path, or the path itself |
| Fetcher.Discovered | reana_server/fetcher.py:168-173 | a path is discovered iff it is the output directory joined with a known file name and is a file |
| Fetcher.DiscoverWorkflowSpecs | reana_server/fetcher.py:158-173 | the loop collects exactly the discovered paths, in the order of the file names |
| Fetcher.WorkflowSpecPath | reana_server/fetcher.py:185-210 | an explicit specification is checked for containment and existence; otherwise exactly one distinct discovered file is required, and no file or several are distinct errors |
| Fetcher.ExplicitSpecPath | reana_server/fetcher.py:194-202 | a path outside the output directory is invalid, a missing file is not found, and otherwise the absolute path is the answer |
| Fetcher.OnlySpec | reana_server/fetcher.py:205-210 | no specification and several are errors, and a single one is the answer |
| Fetcher.WriteToFile | reana_server/fetcher.py:112-127 | the count is the total of the chunks written; writing stops only at the end or after the first chunk that takes the count past the maximum |
| Fetcher.DownloadFile | reana_server/fetcher.py:102-156 | time-outs, request failures, HTTP errors and an announced length over the maximum write nothing; the download succeeds iff the content fits, and then the file holds all of it |
| AdminOptions.AdminAccessTokenOption | reana_server/reana_admin/options.py:24-45 | the command runs iff the token validates, and otherwise exits with status 1 and the validation message |
| AdminOptions.BothOptionsRejected | reana_server/reana_admin/options.py:55-57 | giving both `--email` and `--id` exits before any lookup |
| AdminOptions.UserOptionOutcomes | reana_server/reana_admin/options.py:48-66 | the command runs with no user iff neither option is given, and with a user only when it is the row the given id or email selects |
| AdminOptions.EmptyEmailSelectsSoleUser | reana_server/reana_admin/options.py:59-60 | an empty `--email` passes the `None` test but not the lookup's truthiness test, so the lookup is unfiltered |
| AdminOptions.AddWorkflowOption | reana_server/reana_admin/options.py:69-91 | no workflow without `--workflow`; a malformed UUID and a missing workflow exit with status 1; a workflow is passed on only when the UUID is valid and the lookup found it |
| AdminOptions.MalformedWorkflowIdNeverLooked | reana_server/reana_admin/options.py:80-82 | a malformed UUID is turned away whatever the table holds |
| AdminCli.QueueConsumeArguments | reana_server/reana_admin/cli.py:694-706 | the consumer starts iff `-k` or `-i` is given and a non-empty key comes with values; every refusal exits with status 1 |
| AdminUsage.Worse | reana_server/reana_admin/cli.py:461-488 | the health kept is one of the two and at least as bad as either |
| AdminUsage.OrDash | reana_server/reana_admin/cli.py:477-479 | a truthy limit is shown as it is, any other as `-` |
| AdminUsage.UserHealth | reana_server/reana_admin/cli.py:482-488 | a user's health is the disk's or the cpu's, healthy where none is recorded, whichever is worse |
| AdminUsage.ListedOf | reana_server/reana_admin/cli.py:470-490 | each listed row carries the colour of its own health |
| AdminUsage.WithHealthMembers | reana_server/reana_admin/cli.py:496-500 | the rows of one health are exactly the listed rows of that health |
| AdminUsage.SortByHealth | reana_server/reana_admin/cli.py:492-502 | the stable sort by health; `SortByHealthSorts`, `SortByHealthStable` and `SortByHealthLength` state it |
| AdminUsage.SortByHealthSorts | reana_server/reana_admin/cli.py:492-502 | the sorted rows are the listed rows reordered, worst health first |
| AdminUsage.SortByHealthStable | reana_server/reana_admin/cli.py:496-500 | rows of equal health keep the order they were listed in, as Python's stable sort keeps them even in reverse |
| AdminUsage.StableSortUnique | reana_server/reana_admin/cli.py:496-500 | any ordering with worst health first that keeps each health's rows in listed order is the sorted listing |
| AdminUsage.SortKeepsColoursPaired | reana_server/reana_admin/cli.py:493-502 | sorting the zipped triples keeps every row with its own colour |
| AdminUsage.Listing | reana_server/reana_admin/cli.py:469-490 | one listed row per user, in query order |
| AdminUsage.ListQuotaUsage | reana_server/reana_admin/cli.py:454-520 | the listing fails iff some user lacks a cpu or disk entry or a usage; otherwise it holds the users' rows and their colours, sorted worst health first |
| AdminUsage.RowsOf | reana_server/reana_admin/cli.py:493-495 | unzipping gives each triple's row, in order |
| AdminUsage.ColoursOf | reana_server/reana_admin/cli.py:493-495 | unzipping gives each triple's colour, in order |
| AdminTable.MaxLength | reana_server/reana_admin/cli.py:378-384 | a column width is the length of the widest entry: every entry fits, and one fills it |
| AdminTable.AppendRows | reana_server/reana_admin/cli.py:385-386 | the loop appends every row of a group, in order |
| AdminTable.FormatQuotaStatuses | reana_server/reana_admin/cli.py:366-388 | the text is the upper-cased type followed by the text of each non-empty group, in dictionary order |
| AdminTable.GroupTextOf | reana_server/reana_admin/cli.py:369-386 | a non-empty group is its heading followed by its rows at the group's own widths |
| AdminTable.RowsAligned | reana_server/reana_admin/cli.py:360-384 | with percentages of at most ten characters every user's line in a group is exactly as long as the widths add up to |
| AdminTable.WidthsFit | reana_server/reana_admin/cli.py:378-384 | each column is as wide as its widest entry and no wider, and the percentage column is as wide as its heading |
| AdminTokens.MatchingIndicesIff | reana_server/utils.py:367 | the query selects exactly the rows satisfying the criteria |
| AdminTokens.MatchingIndicesIncrease | reana_server/utils.py:367 | each selected row once, in table order |
| AdminTokens.MatchingIgnoresTokens | reana_server/utils.py:360-367 | only the id and the email take part in the lookup |
| AdminTokens.FindAccount | reana_server/utils.py:360-371 | a found row is a row of the table; `FindAccountFound`, `FindAccountNone` and `FindAccountSeveral` say which row is found and when none is or the lookup fails |
| AdminTokens.FindAccountFound | reana_server/utils.py:360-369 | a row is found only when it is the one row the criteria select |
| AdminTokens.FindAccountNone | reana_server/utils.py:360-371 | no row is found iff the id is malformed or the criteria select none |
| AdminTokens.FindAccountSeveral | reana_server/utils.py:367 | the lookup fails only when two rows or more are selected |
| AdminTokens.Grant | reana_server/reana_admin/cli.py:223-281 | `token-grant` on the rows: `GrantTouchesOneRow`, `GrantGivesToken`, `SecondGrantFails` and `GrantAfterRevoke` state its outcomes and its new rows |
| AdminTokens.GrantTouchesOneRow | reana_server/reana_admin/cli.py:223-281 | a grant keeps the number of rows and every id and email, leaves every row but the one found exactly as it was, keeps every row's token consistent with its status, and changes nothing unless it succeeds |
| AdminTokens.Revoke | reana_server/reana_admin/cli.py:288-338 | `token-revoke` on the rows: `RevokeTouchesOneRow` and `SecondRevokeFails` state its outcomes and its new rows |
| AdminTokens.RevokeTouchesOneRow | reana_server/reana_admin/cli.py:288-338 | a revocation keeps the number of rows and every id and email, leaves every row but the one found exactly as it was, removes that row's token and marks it revoked when it succeeds, keeps consistency, and changes nothing unless it succeeds |
| AdminTokens.GrantGivesToken | reana_server/reana_admin/cli.py:229-250 | a successful grant went to a user without a token, who now holds the generated token, active |
| AdminTokens.SecondRevokeFails | reana_server/reana_admin/cli.py:297-306 | revoking again finds no active token and exits with status 1 |
| AdminTokens.SecondGrantFails | reana_server/reana_admin/cli.py:231-239 | granting again finds the active token and exits with status 1 |
| AdminTokens.GrantAfterRevoke | reana_server/reana_admin/cli.py:240-310 | after a revocation, a confirmed grant succeeds |
| AdminTokens.AccountTable.constructor | reana_server/reana_admin/cli.py:226 | the table holds the given rows |
| AdminTokens.AccountTable.TokenGrant | reana_server/reana_admin/cli.py:219-281 | the outcome and the new rows are those of `Grant`: a wrong admin token or a failed lookup is reported, a missing user or an active token exits with status 1, a declined prompt aborts, and otherwise the user gets the generated token |
| AdminTokens.AccountTable.TokenRevoke | reana_server/reana_admin/cli.py:284-338 | the outcome and the new rows are those of `Revoke`: a missing user or no active token exits with status 1, and otherwise the token is revoked |
| AdminQuotaSet.Having | reana_server/reana_admin/cli.py:563-565 | the resources holding a name, or a type, are exactly those of the table that hold it |
| AdminQuotaSet.SelectResourceAsWritten | reana_server/reana_admin/cli.py:562-575 | the selection as written; `SelectionsAgreeElsewhere` and `MissingTypeExitsZero` relate it to the corrected one |
| AdminQuotaSet.SelectResource | reana_server/reana_admin/cli.py:562-575 | a chosen resource exists and has the given name, or else the given type; several of the type are ambiguous, and several of the name make the lookup fail |
| AdminQuotaSet.SelectResourceOutcomes | reana_server/reana_admin/cli.py:562-575 | conversely: with a name, a sole resource of that name is chosen, none is a missing resource and several make the lookup fail; without one, for a known type, a sole resource of the type is chosen, none is a missing resource and several are ambiguous; anything else is a missing resource |
| AdminQuotaSet.NameOverridesType | reana_server/reana_admin/cli.py:562-564 | given `--resource-name`, `--resource` plays no part |
| AdminQuotaSet.SelectionsAgreeElsewhere | reana_server/reana_admin/cli.py:562-575 | the corrected selection differs from the one as written only for a known type that has no resource |
| AdminQuotaSet.MissingTypeExitsZero | reana_server/reana_admin/cli.py:564-625 | as written, a known type without a resource raises `IndexError`, reported with exit status 0; as intended it is a missing resource with exit status 1 |
| AdminQuotaSet.EmailStep | reana_server/reana_admin/cli.py:557-596 | an address lets the command go on only with a resource chosen, and then with the id of the user the address's lookup finds; a stop is never a success |
| AdminQuotaSet.EmailStepOutcomes | reana_server/reana_admin/cli.py:557-596 | an address goes on iff its user is found and a resource is chosen; a failed lookup and a failed name lookup are reported, an ambiguous type exits, then a missing user exits, then a missing resource exits, each with its message |
| AdminQuotaSet.ResolveAll | reana_server/reana_admin/cli.py:557-596 | when no address stops the command, there is one user id per address; a stop is never a success |
| AdminQuotaSet.ResolveAllIds | reana_server/reana_admin/cli.py:557-596 | when no address stops the command, the `j`-th id is the one the `j`-th address comes to |
| AdminQuotaSet.ResolveAllOkIff | reana_server/reana_admin/cli.py:557-596 | no address stops the command iff every address goes on |
| AdminQuotaSet.ResolveAllFirstError | reana_server/reana_admin/cli.py:557-596 | a stopped command ends as its first failing address does, every address before it having gone on |
| AdminQuotaSet.NamedUsersGetLimit | reana_server/reana_admin/cli.py:557-613 | when no address stops the command, the user of the `j`-th address has an entry for the chosen resource with the new limit and what it used, or 0 |
| AdminQuotaSet.EveryNamedUserGetsLimit | reana_server/reana_admin/cli.py:557-613 | when no address stops the command, the user of every address has the new limit for the chosen resource |
| AdminQuotaSet.AllLimitsSetIff | reana_server/reana_admin/cli.py:557-613 | the recursive form of "every address's user has the limit" holds iff each address's user has it |
| AdminQuotaSet.AllNamedUsersGetLimit | reana_server/reana_admin/cli.py:557-613 | when no address stops the command, a resource is chosen and every address's user has the new limit, in the recursive form |
| AdminQuotaSet.SetLimits | reana_server/reana_admin/cli.py:598-613 | the new limits entered one user after the other; `SetLimitsEffect` states the resulting table |
| AdminQuotaSet.SetLimitsEffect | reana_server/reana_admin/cli.py:598-613 | every named user gets the new limit for the resource, keeping what they used or starting from 0, and every other entry stays |
| AdminQuotaSet.SetOneEffect | reana_server/reana_admin/cli.py:598-613 | one limit set: the named entry gets the limit and keeps what it used, or 0; nothing else changes |
| AdminQuotaSet.SkipRest | reana_server/reana_admin/cli.py:590-596 | once an address stops the command, the addresses after it do not matter |
| AdminQuotaSet.QuotaTables.constructor | reana_server/reana_admin/cli.py:554-556 | the tables hold the given users, resources and user resources |
| AdminQuotaSet.PendingLimits | reana_server/reana_admin/cli.py:557-613 | the loop over the addresses stops with the outcome of the first one that fails, and otherwise comes back with a resource chosen and the table with the new limits of the addresses' users |
| AdminQuotaSet.QuotaTables.QuotaSet | reana_server/reana_admin/cli.py:554-625 | the command stops, changing nothing, at the first address that fails; otherwise it succeeds, the user of every given address then has the new limit for the chosen resource, and the users and resources stay as they were |
| AdminRetention.PendingIndices | reana_server/reana_admin/cli.py:751-754 | the query lists exactly the active rules due strictly before now, and nothing iff none is |
| AdminRetention.PendingIndicesIncrease | reana_server/reana_admin/cli.py:751-754 | each pending rule once, in table order |
| AdminRetention.AfterApply | reana_server/reana_admin/cli.py:757-759 | applying keeps the number of rules |
| AdminRetention.MarkAllAt | reana_server/reana_admin/cli.py:759 | marking touches exactly the listed rules, and marking one twice is marking it once |
| AdminRetention.MarkPending | reana_server/reana_admin/cli.py:751-759 | marking the pending rules one after the other is applying the rules |
| AdminRetention.RuleTable.constructor | reana_server/reana_admin/cli.py:751 | the table holds the given rules |
| AdminRetention.RuleTable.RetentionRulesApply | reana_server/reana_admin/cli.py:747-759 | the pending rules are applied in table order, "nothing to do" is reported iff there are none, and the table ends with each of them marked applied |
| AdminRetention.AfterApplyEffect | reana_server/reana_admin/cli.py:757-759 | a pending rule ends applied, any other rule is left as it is, and workflow and due date never change |
| AdminRetention.NothingDueTwice | reana_server/reana_admin/cli.py:751-759 | applying again at the same moment finds nothing to apply and changes nothing |
| GitLabClient.Format | reana_server/gitlab_client.py:92 | `str.format` with keyword fields; `FormatEscape`, `FormatField` and `FormatRender` state it |
| GitLabClient.FormatEscape | reana_server/gitlab_client.py:92 | `str.format` turns every doubled brace of a template back into one brace and keeps other text |
| GitLabClient.FormatField | reana_server/gitlab_client.py:92 | a `{name}` field is replaced by the argument of that name |
| GitLabClient.FormatRender | reana_server/gitlab_client.py:92 | formatting the template text of a sequence of pieces is filling in those pieces, failing exactly where an argument is missing |
| GitLabClient.MakeUrl | reana_server/gitlab_client.py:90-92 | `_make_url`; `LeadingSlashesIgnored`, `MakeUrlUnderApi` and `UrlOfPieces` state the URLs it builds |
| GitLabClient.Quoted | reana_server/gitlab_client.py:91 | every argument is quoted, and no other key is added |
| GitLabClient.LeadingSlashesIgnored | reana_server/gitlab_client.py:92 | a leading slash of the path makes no difference to the URL |
| GitLabClient.MakeUrlUnderApi | reana_server/gitlab_client.py:90-92 | every URL `_make_url` builds lies under `https://<host>/api/v4/` |
| GitLabClient.UrlOfPieces | reana_server/gitlab_client.py:90-92 | the URL is the API root followed by the path's pieces filled with the quoted arguments |
| GitLabClient.UrlOfOneField | reana_server/gitlab_client.py:90-92 | a path with one placeholder gives the API root, the text, the quoted argument and the rest |
| GitLabClient.UrlOfTwoFieldsText | reana_server/gitlab_client.py:90-92 | a path with two placeholders gives both quoted arguments in place |
| GitLabClient.ErrorDetail | reana_server/gitlab_client.py:99-107 | the detail of a failed request; `MessageFieldPreferred`, `DescriptionFieldNext` and `ContentOtherwise` state which part of the response it is |
| GitLabClient.CheckResponse | reana_server/gitlab_client.py:94-109 | a response passes, unchanged, iff its status is below 400; a 401 is an invalid token, and any other status from 400 on is a request error carrying the response |
| GitLabClient.ErrorMessageNamesStatus | reana_server/gitlab_client.py:99-105 | the message of a failed request starts with the status code |
| GitLabClient.MessageFieldPreferred | reana_server/gitlab_client.py:102-103 | a `message` field of the body is preferred |
| GitLabClient.DescriptionFieldNext | reana_server/gitlab_client.py:104-105 | without it, an `error_description` field is used |
| GitLabClient.ContentOtherwise | reana_server/gitlab_client.py:99-107 | a body that does not decode, or has neither field, gives the raw content |
| GitLabClient.FromSecret | reana_server/gitlab_client.py:59-70 | without the user's `gitlab_access_token` secret the token is invalid; with it, the client holds that token |
| GitLabClient.GetFile | reana_server/gitlab_client.py:140-158 | a GET of `projects/<project>/repository/files/<path>/raw`, both quoted, with the token and the ref |
| GitLabClient.GetProjects | reana_server/gitlab_client.py:160-174 | a GET of `projects` with the token, the page, the page size and any extra parameters, which override |
| GitLabClient.GetWebhooks | reana_server/gitlab_client.py:176-191 | a GET of the project's hooks with the token, the page and the page size |
| GitLabClient.CreateWebhook | reana_server/gitlab_client.py:205-214 | a POST of the configuration to the project's hooks with the token |
| GitLabClient.DeleteWebhook | reana_server/gitlab_client.py:216-230 | a DELETE of `projects/<project>/hooks/<id>`, both quoted, with the token |
| GitLabClient.SetCommitBuildStatus | reana_server/gitlab_client.py:232-260 | a POST to the commit's statuses with the token, the state, the description and the name |
| GitLabClient.GetUser | reana_server/gitlab_client.py:262-266 | a GET of `user` with the token |
| GitLabClient.OAuthToken | reana_server/gitlab_client.py:126-138 | a POST of the data to `https://<host>/oauth/token`, which is not under the API root |
| GitLabClient.NextUrl | reana_server/gitlab_client.py:123-124 | a `next` link is followed only when its URL is not empty |
| GitLabClient.Pages | reana_server/gitlab_client.py:117-124 | the listing a page starts; `LastPageEnds`, `PagesInOrder` and `FuelMonotone` state it |
| GitLabClient.UnrollPagination | reana_server/gitlab_client.py:117-124 | the loop collects exactly the items of the listing: the first page fetched with the largest page size, then each `next` page in turn, until a page has no `next` link or a request fails |
| GitLabClient.FirstRequestShape | reana_server/gitlab_client.py:119-120 | the first request is a GET that asks for 100 items per page and keeps every other parameter |
| GitLabClient.LastPageEnds | reana_server/gitlab_client.py:121-124 | a page without a `next` link ends the listing with its own items |
| GitLabClient.PagesInOrder | reana_server/gitlab_client.py:121-124 | the items of a page come before those of the page it links to |
| GitLabClient.FuelMonotone | reana_server/gitlab_client.py:121-124 | a listing that ended on its own is the same under any larger bound on the number of pages |
| GitLabClient.GetAllWebhooks | reana_server/gitlab_client.py:193-203 | every webhook of the project, page by page, starting from the project's hooks with the token |
| GitLabClient.UrlOfTwoFields | reana_server/gitlab_client.py:90-92 | a path ending in a second placeholder gives both quoted arguments, in place |
| Status.ExecuteCmd | reana_server/status.py:40-42 | the output is the command's output with exactly its trailing carriage returns and newlines removed |
| Status.WordLength | reana_server/status.py:148 | a word runs up to the first whitespace or the end |
| Status.Words | reana_server/status.py:148-156 | `split()` yields only non-empty words free of whitespace |
| Status.WordsCons | reana_server/status.py:148 | a word followed by whitespace or the end is the first word |
| Status.WordsJoin | reana_server/status.py:155-156 | splitting words joined by single spaces gives the words back |
| Status.LineLength | reana_server/status.py:154 | a line runs up to the first line break or the end |
| Status.Lines | reana_server/status.py:154 | `splitlines()` yields lines free of line breaks |
| Status.LinesCons | reana_server/status.py:154 | a line ended by a newline is the first line, and the others are those of the rest |
| Status.LinesLast | reana_server/status.py:154 | a final line is a line whether or not a break follows it |
| Status.GetPath | reana_server/status.py:133-141 | the user's workspace for a user, otherwise the users directory of the shared volume |
| Status.DirectorySize | reana_server/status.py:148 | the size is the first word of the output, and there is one iff the output has a word |
| Status.NoWordsIffBlank | reana_server/status.py:148 | the size is missing exactly when the output is all whitespace |
| Status.SizeIsFirstWord | reana_server/status.py:143-149 | the first word `du` prints is the size, whatever follows it |
| Status.IndexOf | reana_server/status.py:157-159 | `index` gives the first position of the header, and fails iff it is absent |
| Status.HealthOfRow | reana_server/status.py:155-164 | the report fails with a `ValueError` iff one of the `Used`, `Avail` and `Use%` headers is missing |
| Status.SharedVolumeHealth | reana_server/status.py:150-164 | `shared_volume_health` on the `df` output; `HealthOfTable`, `MissingHeaderFails` and `HeaderOnlyFails` state its answers |
| Status.HealthOfTable | reana_server/status.py:151-164 | for a header line and a row, the report is the values standing under the first `Used`, `Avail` and `Use%` headers |
| Status.TwoLines | reana_server/status.py:154-156 | the header and the row are the first two lines of the output |
| Status.MissingHeaderFails | reana_server/status.py:157 | without a `Used` header the report fails with a `ValueError` |
| Status.HeaderOnlyFails | reana_server/status.py:156 | a header with no row under it is an `IndexError` |
| OpenApiChecker.MergeAssoc | scripts/openapi_checker.py:123-136 | collecting the findings of consecutive visits does not depend on how the visits are grouped |
| OpenApiChecker.RwcOperationShape | scripts/openapi_checker.py:56-84 | exactly the calls of the shape `current_rwc_api_client.api.<op>(...)` record `<op>` |
| OpenApiChecker.SigninDecoratorShape | scripts/openapi_checker.py:113-121 | only a call of the bare name `signin_required` counts as the decorator |
| OpenApiChecker.ViewVisitor.constructor | scripts/openapi_checker.py:42-54 | a new visitor has collected nothing |
| OpenApiChecker.ViewVisitor.CheckRwcMethod | scripts/openapi_checker.py:56-84 | the visitor adds the operation a call names, if it names one, and changes nothing else |
| OpenApiChecker.ViewVisitor.CheckStatusCode | scripts/openapi_checker.py:86-111 | a return whose second element is `.status_code` propagates codes, one whose second element is an integer constant adds it, and any other return is marked undetermined |
| OpenApiChecker.ViewVisitor.CheckSigninRequired | scripts/openapi_checker.py:113-121 | sign-in is marked required iff some decorator is `signin_required(...)` |
| OpenApiChecker.ViewVisitor.VisitExpr | scripts/openapi_checker.py:128-131 | visiting an expression adds what each of its call nodes, at any depth, contributes |
| OpenApiChecker.ViewVisitor.VisitExprs | scripts/openapi_checker.py:128-131 | visiting expressions in turn adds the findings of each |
| OpenApiChecker.StmtFindings | scripts/openapi_checker.py:123-136 | what the visitor collects below a statement; `ViewVisitor.VisitStmt` is proved to collect exactly this |
| OpenApiChecker.ViewVisitor.VisitStmt | scripts/openapi_checker.py:123-136 | visiting a statement adds what each return, function definition and call below it contributes |
| OpenApiChecker.ViewVisitor.VisitStmts | scripts/openapi_checker.py:123-136 | visiting statements in turn adds the findings of each |
| OpenApiChecker.NatToStringDigits | scripts/openapi_checker.py:150 | a code written in decimal is all digits and reads back as itself |
| OpenApiChecker.ParseCodeOfString | scripts/openapi_checker.py:150 | `int` of a decimal status code gives the code back |
| OpenApiChecker.ResponseCodes | scripts/openapi_checker.py:150 | when all the response keys parse, the codes are exactly the parsed keys |
| OpenApiChecker.FindInOperationsIff | scripts/openapi_checker.py:148-149 | an operation is found in a path iff one has the id, and what is found has it |
| OpenApiChecker.FindOperationIff | scripts/openapi_checker.py:147-151 | an operation is found iff some path declares the id, and what is found has it |
| OpenApiChecker.UndeclaredRaises | scripts/openapi_checker.py:151 | an id no path declares raises `RWC operation not found` |
| OpenApiChecker.RwcStatusCodes | scripts/openapi_checker.py:144-151 | the codes of the first operation with the id; `UndeclaredRaises` states the error for an undeclared id |
| OpenApiChecker.GetRwcStatusCodes | scripts/openapi_checker.py:144-151 | the nested loops answer with the codes of the first operation with the id, or the error |
| OpenApiChecker.RwcIssuesStep | scripts/openapi_checker.py:196-200 | the errors of one more operation are added to those of the others |
| OpenApiChecker.ViewIssues | scripts/openapi_checker.py:194-211 | the errors of one view; `ViewIssuesIff` and `ViewIssuesNameView` state which are reported |
| OpenApiChecker.ViewIssuesIff | scripts/openapi_checker.py:194-211 | a missing operation code is reported iff codes are propagated, the view calls the operation and the operation returns the code; a view's own code iff it returns it; and 401 and 403 iff sign-in is required; each only when the view does not document it |
| OpenApiChecker.ViewIssuesNameView | scripts/openapi_checker.py:200-211 | every error names the view it was found in |
| OpenApiChecker.Checker.constructor | scripts/openapi_checker.py:153-155 | a new checker has no errors |
| OpenApiChecker.Checker.Warn | scripts/openapi_checker.py:161-163 | a warning is recorded and leaves the errors alone |
| OpenApiChecker.Checker.Error | scripts/openapi_checker.py:165-168 | an error is recorded and the error flag set |
| OpenApiChecker.Checker.ReportRwcCodes | scripts/openapi_checker.py:198-200 | one error per code of the operation missing from the view's specification |
| OpenApiChecker.Checker.ReportViewCodes | scripts/openapi_checker.py:203-205 | one error per code the view returns that its specification lacks |
| OpenApiChecker.Checker.ReportSigninCodes | scripts/openapi_checker.py:207-211 | one error for each of 401 and 403 that the specification lacks |
| OpenApiChecker.Checker.ReportRwcOperations | scripts/openapi_checker.py:196-200 | the loop stops iff the codes of some called operation cannot be had; otherwise it reports the missing codes of every operation |
| OpenApiChecker.Checker.CheckFindings | scripts/openapi_checker.py:187-211 | the warnings and errors of a view, given what the visitor collected |
| OpenApiChecker.Checker.CheckView | scripts/openapi_checker.py:170-211 | a view without a specification only gets a warning; otherwise the view's warnings and errors are reported, and checking stops iff a propagated call names an operation whose codes cannot be had; the flag stays set exactly when there are errors |
| OpenApiChecker.AllIssuesEmptyIff | scripts/openapi_checker.py:218-222 | there are errors exactly when some view has one |
| OpenApiChecker.CheckOpenapi | scripts/openapi_checker.py:214-222 | every view is checked in turn; the command stops iff some view's check fails, and it exits with status 1 exactly when some view has an error, 0 otherwise |
| OpenApiChecker.NoneFailUpToAll | scripts/openapi_checker.py:218-219 | when each of the first views in turn did not stop the command, none of them stops it |
| OpenApiChecker.CheckNext | scripts/openapi_checker.py:218-219 | checking the next view adds its errors to those of the views before it, or stops exactly when that view fails |

## Left out

- Transport and side effects: git cloning, HTTP downloads, zip extraction and file moves in
  `fetcher.py`. Also the kombu consumer plumbing, Kubernetes calls, SQLAlchemy queries and
  commits, e-mail sending, Jinja rendering, and click's printing and `sys.exit`. Each is
  abstracted to the outcome the decision logic sees: a parameter, a returned status, or a
  recorded event.
- Concurrency: each consumer handles one message at a time, as the code does. Nothing is
  modelled about several processes sharing a queue.
- Utils.UsagePercentage: floating point. `get_usage_percentage` is modelled only for its
  zero-limit answer and for whether a percentage is printed. The `"{:.1%}"` rendering of the ratio is left out.
- `rest/` blueprints other than `rest/quota.py`, `rest/launch.py`, `oauth.py`, `validation.py`,
  the older `reana_admin.py`, `cli.py`, and the configuration and build files. These only
  forward requests or wire things together; `validation.py` wraps validators defined in
  another package.
- Fetcher.UrlSplit: a simplified `urlsplit`. The `;params` part of the path is not split off,
  and the `ValueError` that `urlsplit` raises on an unbalanced `[` or `]` in the network
  location is not modelled.
- Fetcher: werkzeug's route matching is modelled as segment patterns, tried in werkzeug's
  priority order for these rules: tree or archive first, then `.git`, then the plain
  repository.
- Fetcher: `quote_plus` and the characters of `REGEX_CHARS_TO_REPLACE` are parameters.
  `realpath`, `abspath` and `isfile` are functions of a given file system, and `realpath`
  returns canonical segments.
- Deleter.Deleter.DeleteFiles: requires a path other than the workspace root. The walk uses
  `is_directory` and `iterdir` of the `reana_commons` workspace helpers, which are not part of
  this model; the model assumes that they treat a symbolic link as a leaf and never descend
  into it.
- Retention.RetentionRuleDeleter.DeleteKeepingInputsOutputs: requires a path that exists, since `iterdir` on a
  missing path raises and every caller passes an existing one. A dangling symbolic link, for
  which `exists()` is false, is not modelled.
- Retention.RetentionRuleDeleter.ApplyRule: the glob results are a given sequence of paths
  strictly below the workspace root. A pattern such as `**` also yields the root itself;
  the source then empties the workspace except for inputs and outputs, and removes it when
  nothing is kept. That root match is not modelled. The glob's laziness while entries are
  deleted is not modelled either. The untemplated "already deleted" message is
  printing only.
- CheckWorkflows.RunPodCheck: a pod's container statuses are a list. When the Kubernetes
  client reports `None` for them (a pod not yet scheduled), `for container in
  pod.status.container_statuses` raises `TypeError`. That is not `CheckFailed`, so the
  whole run aborts. The model's `Pod.terminated` is always a list, so it cannot express
  such a pod; the nearest it has, an empty list, passes the not-ready check.
- CheckWorkflows.CollectWorkspaces: every entry under `users/` is a directory. A regular
  file there makes `joinpath("workflows").iterdir()` raise `NotADirectoryError`, which the
  `except FileNotFoundError` does not catch, so the run aborts; the model cannot express
  such an entry.
- Paths.ToPath: exactly two leading slashes are kept by `PurePosixPath` as the root `//`
  (`PurePosixPath("//a").parts` is `("//", "a")`); the model reads them as the root `/`.
- Utils.IsUuidV4: the `UUID` constructor is modelled (the `urn:` and `uuid:` prefixes and
  the braces removed, dashes dropped, 32 hex digits, version 4 forced), but the leniency of
  its `int(hex, 16)` (whitespace, `_`, a sign) is not. It cannot change the answer: the
  check compares `uuid.hex` with the input's own digits, which then differ.
- Utils.ValidateEmail: Unicode `\w` in the e-mail pattern is modelled by ASCII letters,
  digits and `_`.
- Utils: `_import_users`, `_create_user` apart from its token default, and the database
  lookups in `_get_users`. These are session I/O. Marshmallow validation and the success
  message texts are left out as well.
- Quota.ValidBody: `limit` is taken as a JSON integer, though marshmallow's non-strict
  `fields.Int` also accepts `"5"` and `5.0` and the handler then passes that raw value on.
  Unknown fields are rejected, as marshmallow 3 does. The `{errors}` text appended to the 400
  message is omitted.
- AdminTokens: the account table is a sequence of rows, and a query's order is the table order.
- AdminRetention: applying a rule is given by what happens to its status. The cleaning of the
  workspace that `apply_rule` does is not modelled there.
- GitLabClient.FormatField: `str.format` keyword fields only. Conversions (`!r`), format
  specs (`:>8`) and positional fields give `Unsupported`. The project is taken as a string.
- GitLabClient: the content of a response is given already rendered, and JSON values that
  are not strings go through a `repr` parameter.
- GitLabClient.UnrollPagination: follows at most `fuel` `next` links, and stops with
  `OutOfFuel` beyond that. The source loops for as long as there are `next` links.
- GitLabClient.UnrollPagination: a page whose body is not a list stops with `NotAList`. As
  written, iterating a dictionary body would yield its keys.
- GitLabClient.UnrollPagination: the `params` dictionary the caller passes is mutated in
  place by the source. Here the first request's parameters are a value.
- Status: `decode()` of the command output and the `subprocess` call are a given string.
  `InteractiveSessionsStatus`, `SystemStatus`, and the database and uptime parts of the other
  status classes are queries.
- Status: the database ordering by `quota_used*100.0/quota_limit` uses floating point and is
  not part of the parsing that is modelled.
- OpenApiChecker: syntax-tree nodes other than calls, attributes, names, constants, tuples,
  returns and function definitions are `Other`. `AsyncFunctionDef` is among them. A `Call`
  has no keyword arguments and a `FunctionDef` no arguments, defaults or annotations, though
  `generic_visit` walks them; a call placed there is found only when it is encoded among a
  node's `args` or an `Other` node's expressions.
- OpenApiChecker.ParseCodeOfString: `int()` is modelled on ASCII digits only. Its leniency
  (surrounding whitespace, a sign, underscores) is left out.
- OpenApiChecker: response keys of the YAML specification are the integers YAML reads for
  keys such as `200:`. String keys (`default`, a quoted `'200'`) are not modelled. `load_rwc_spec` and the docstring parsing are I/O over a
  given specification. Printed lines become recorded issues and warnings, and `info()` is
  printing only.
- OpenApiChecker.Checker.ReportRwcCodes: the order in which a set is iterated, and so the
  order of printed errors, is left open. The model states the set of errors reported.

## Findings

| source | as written | input that shows it | evidently intended | confidence | as-written member | corrected member |
|---|---|---|---|---|---|---|
| reana_server/utils.py:381-386 | `re.search` with a pattern ending in `$` accepts an address followed by a newline, because Python's `$` also matches before a final `\n` | `"ab@cd.ef\n"` | only a value that is an address as a whole is accepted | not executed | Utils.ValidateEmailAsWritten, Utils.TrailingNewlineAccepted | Utils.ValidateEmail, Utils.EmailChecksAgree |
| reana_server/reana_admin/cli.py:564-575 | for a known resource type with no resource, `resources[0]` raises `IndexError`, which the `except Exception` reports, and the command then exits with status 0 | `quota-set --resource cpu` with no `cpu` resource defined | the resource is reported missing and the command exits with status 1, as for an unknown type | not executed | AdminQuotaSet.SelectResourceAsWritten, AdminQuotaSet.MissingTypeExitsZero | AdminQuotaSet.SelectResource, AdminQuotaSet.SelectionsAgreeElsewhere |
| reana_server/rest/quota.py:393-415 | the POST handler refuses only a body naming both a user id and an e-mail, though its message asks for exactly one, so a body naming no user is accepted | `{"resource_type": "cpu", "limit": 5}` | exactly one of `user_id` and `email` is required | not executed | Quota.SetQuotaLimitAsWritten, Quota.NoUserAcceptedAsWritten, Quota.AsWrittenRefusesOnlyBoth | Quota.SetQuotaLimit, Quota.SetAnswersOnlyForOneUser, Quota.SetAnswersForOneUser |
