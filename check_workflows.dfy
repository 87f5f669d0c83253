// The administrative consistency check: workflows and interactive sessions
// in the database are compared with the pods and queue messages that their
// status implies, and workspaces on disk with the workspaces in the database.
module CheckWorkflows {
  import opened Wrappers
  import opened Text
  import opened Paths
  import opened Ordering
  import Consumer

  // Message texts, kept apart from the code that assembles them.
  const OnePodPrefix := "Only one pod should exist. Found "
  const NotInPhasePrefix := "Some pods are not in "
  const NotReadySuffix := " pod is in NotReady state."
  const WorkspacePrefix := "The workspace '"
  const WorkspaceMissingSuffix := "' does not exist."
  const MessagesFailed := "Couldn't collect scheduler messages: "
  const PodsFailed := "Couldn't fetch list of pods: "
  const RelatedPrefix := "The related workflow has '"
  const RelatedSuffix := "' as workspace instead."
  const Period := "."
  const IdOrNameKey := "workflow_id_or_name"
  const NoPodsFound := "No pods found."
  const PodsStillExist := "Some pods still exist."
  const NotInQueue := "Message is not found in workflow-submission queue."
  const PendingPhase := "Pending"
  const RunningPhase := "Running"
  const BatchPodPrefix := "run-batch-"
  const SessionPodPart := "run-session"
  const SessionPodName := "Session pod"
  const NoSessionForPod := "Pod doesn't have a session in the database."
  const NotOwned := "The workspace is not owned by any workflow."
  const WorkflowsDir := "workflows"

  datatype RunStatus = Created | Queued | Pending | Running | Finished | Failed | Deleted | Stopped

  /** A pod: its name, its phase, and for each container whether it has terminated. */
  datatype Pod = Pod(name: string, phase: string, terminated: seq<bool>)

  datatype Workflow = Workflow(id: string, name: string, fullName: string, ownerEmail: string,
                               status: RunStatus, workspacePath: string, created: int)

  /** The checks that look only at the pods. */
  datatype PodCheck =
    | PodsExist
    | PodsDontExist
    | OnlyOnePodExists
    | AllPodsHavePhase(phase: string)
    | NoBatchPodsNotReady

  datatype Check = MessageInSchedulerQueue | WorkspaceExists | OnPods(podCheck: PodCheck)

  datatype CheckSource = CheckSource(id: Option<string>, name: Option<string>, user: Option<string>,
                                     status: Option<RunStatus>, workspace: Option<string>)

  /** A checked workflow, session or workspace with the messages of its failed checks. */
  datatype CheckResult = CheckResult(source: CheckSource, errors: seq<string>)

  /** `validation_map`: the checks for each status; statuses without an entry are not checked. */
  function ValidationMap(status: RunStatus): Option<seq<Check>>
  {
    match status
    case Created => Some([WorkspaceExists])
    case Queued => Some([MessageInSchedulerQueue, WorkspaceExists])
    case Pending => Some([OnPods(PodsExist), OnPods(AllPodsHavePhase(PendingPhase)), WorkspaceExists])
    case Running => Some([OnPods(PodsExist), OnPods(AllPodsHavePhase(RunningPhase)), OnPods(NoBatchPodsNotReady), WorkspaceExists])
    case Finished => Some([OnPods(PodsDontExist), WorkspaceExists])
    case Failed => Some([OnPods(PodsDontExist), WorkspaceExists])
    case Deleted => None
    case Stopped => Some([WorkspaceExists])
  }

  /** The name of the first pod with a terminated container. */
  function FirstNotReady(pods: seq<Pod>): (r: Option<string>)
    ensures r.Some? <==> exists k :: 0 <= k < |pods| && true in pods[k].terminated
    ensures r.Some? ==> exists k :: 0 <= k < |pods| && true in pods[k].terminated && pods[k].name == r.value
  {
    if pods == [] then None
    else if true in pods[0].terminated then Some(pods[0].name)
    else
      var r := FirstNotReady(pods[1..]);
      assert forall k :: 1 <= k < |pods| ==> pods[k] == pods[1..][k - 1];
      r
  }

  /** A pod check: `None` when it passes, otherwise the message of its `CheckFailed`. */
  function RunPodCheck(c: PodCheck, pods: seq<Pod>): (r: Option<string>)
    ensures c == PodsExist ==> (r.Some? <==> |pods| == 0)
    ensures c == PodsDontExist ==> (r.Some? <==> |pods| > 0)
    ensures c == OnlyOnePodExists ==> (r.Some? <==> |pods| != 1)
    ensures c.AllPodsHavePhase? ==> (r.Some? <==> exists k :: 0 <= k < |pods| && pods[k].phase != c.phase)
    ensures c == NoBatchPodsNotReady ==> (r.Some? <==> exists k :: 0 <= k < |pods| && true in pods[k].terminated)
  {
    match c
    case PodsExist => if |pods| == 0 then Some(NoPodsFound) else None
    case PodsDontExist => if |pods| > 0 then Some(PodsStillExist) else None
    case OnlyOnePodExists =>
      if |pods| != 1 then Some(OnePodPrefix + NatToString(|pods|) + Period) else None
    case AllPodsHavePhase(phase) =>
      if exists k :: 0 <= k < |pods| && pods[k].phase != phase then Some(NotInPhasePrefix + phase + Period) else None
    case NoBatchPodsNotReady =>
      match FirstNotReady(pods)
      case None => None
      case Some(name) => Some(name + NotReadySuffix)
  }

  /** Any check of a workflow; `messages` are the ids collected from the submission queue. */
  function RunCheck(c: Check, wf: Workflow, pods: seq<Pod>, messages: set<string>, workspaceExists: string -> bool): (r: Option<string>)
    ensures c == MessageInSchedulerQueue ==> (r.Some? <==> wf.id !in messages)
    ensures c == WorkspaceExists ==> (r.Some? <==> !workspaceExists(wf.workspacePath))
    ensures c.OnPods? ==> r == RunPodCheck(c.podCheck, pods)
  {
    match c
    case MessageInSchedulerQueue =>
      if wf.id !in messages then Some(NotInQueue) else None
    case WorkspaceExists =>
      if !workspaceExists(wf.workspacePath) then Some(WorkspacePrefix + wf.workspacePath + WorkspaceMissingSuffix) else None
    case OnPods(pc) => RunPodCheck(pc, pods)
  }

  /** The pods whose name contains `part`, in their order. */
  function PodsNamed(pods: seq<Pod>, part: string): (r: seq<Pod>)
    ensures |r| <= |pods|
    ensures forall p :: p in r <==> p in pods && IsSubstring(part, p.name)
  {
    if pods == [] then []
    else if IsSubstring(part, pods[0].name) then [pods[0]] + PodsNamed(pods[1..], part)
    else PodsNamed(pods[1..], part)
  }

  /** A workflow's pods: those whose name contains `run-batch-<id>`. */
  function BatchPods(wf: Workflow, pods: seq<Pod>): seq<Pod>
  {
    PodsNamed(pods, BatchPodPrefix + wf.id)
  }

  /** The messages of every failing check, in the order of the checks: none is skipped. */
  function Failures(checks: seq<Check>, wf: Workflow, pods: seq<Pod>, messages: set<string>, workspaceExists: string -> bool): (r: seq<string>)
    ensures |r| <= |checks|
    ensures r == [] <==> forall k :: 0 <= k < |checks| ==> RunCheck(checks[k], wf, pods, messages, workspaceExists).None?
    ensures forall k :: 0 <= k < |checks| && RunCheck(checks[k], wf, pods, messages, workspaceExists).Some? ==>
      RunCheck(checks[k], wf, pods, messages, workspaceExists).value in r
  {
    if checks == [] then []
    else
      var n := |checks| - 1;
      var init := Failures(checks[..n], wf, pods, messages, workspaceExists);
      assert forall k :: 0 <= k < n ==> checks[..n][k] == checks[k];
      match RunCheck(checks[n], wf, pods, messages, workspaceExists)
      case None => init
      case Some(e) => init + [e]
  }

  /** Whether a workflow is selected by the query: a checked status, created in the time range. */
  predicate Selected(wf: Workflow, dateStart: int, dateEnd: Option<int>)
  {
    ValidationMap(wf.status).Some? && wf.created >= dateStart && (dateEnd.Some? ==> wf.created < dateEnd.value)
  }

  function FilterWorkflows(all: seq<Workflow>, dateStart: int, dateEnd: Option<int>): (r: seq<Workflow>)
    ensures |r| <= |all|
    ensures forall wf :: wf in r <==> wf in all && Selected(wf, dateStart, dateEnd)
  {
    if all == [] then []
    else if Selected(all[0], dateStart, dateEnd) then [all[0]] + FilterWorkflows(all[1..], dateStart, dateEnd)
    else FilterWorkflows(all[1..], dateStart, dateEnd)
  }

  function WorkflowSource(wf: Workflow): CheckSource
  {
    CheckSource(Some(wf.id), Some(wf.fullName), Some(wf.ownerEmail), Some(wf.status), Some(wf.workspacePath))
  }

  /** The result of checking one selected workflow against its own pods. */
  function WorkflowResult(wf: Workflow, pods: seq<Pod>, messages: set<string>, workspaceExists: string -> bool): CheckResult
    requires ValidationMap(wf.status).Some?
  {
    CheckResult(WorkflowSource(wf),
      Failures(ValidationMap(wf.status).value, wf, BatchPods(wf, pods), messages, workspaceExists))
  }

  /** Results split into the in-sync and the out-of-sync ones. */
  function Partition(results: seq<CheckResult>): (r: (seq<CheckResult>, seq<CheckResult>))
    ensures |r.0| + |r.1| == |results|
    ensures forall x :: x in r.0 ==> x.errors == []
    ensures forall x :: x in r.1 ==> x.errors != []
  {
    if results == [] then ([], [])
    else
      var n := |results| - 1;
      var init := Partition(results[..n]);
      var x := results[n];
      if x.errors == [] then (init.0 + [x], init.1) else (init.0, init.1 + [x])
  }

  /** Each result is in the list its errors call for. */
  predicate Placed(results: seq<CheckResult>, r: (seq<CheckResult>, seq<CheckResult>))
  {
    forall k :: 0 <= k < |results| ==> if results[k].errors == [] then results[k] in r.0 else results[k] in r.1
  }

  /** No result is left out of the split. */
  lemma {:induction false} PartitionComplete(results: seq<CheckResult>)
    ensures Placed(results, Partition(results))
  {
    if results != [] {
      var n := |results| - 1;
      PartitionComplete(results[..n]);
      var s, r := Partition(results[..n]), Partition(results);
      assert s.0 <= r.0 && s.1 <= r.1;
      forall k | 0 <= k < n
        ensures if results[k].errors == [] then results[k] in r.0 else results[k] in r.1
      {
        assert results[..n][k] == results[k];
      }
    }
  }

  /** The result of each selected workflow, in their order. */
  function Results(wfs: seq<Workflow>, pods: seq<Pod>, messages: set<string>, workspaceExists: string -> bool): (r: seq<CheckResult>)
    requires forall wf :: wf in wfs ==> ValidationMap(wf.status).Some?
    ensures |r| == |wfs|
  {
    seq(|wfs|, k requires 0 <= k < |wfs| => WorkflowResult(wfs[k], pods, messages, workspaceExists))
  }

  /** The in-sync and out-of-sync results of a run of workflows. */
  function SplitResults(wfs: seq<Workflow>, pods: seq<Pod>, messages: set<string>, workspaceExists: string -> bool): (r: (seq<CheckResult>, seq<CheckResult>))
    requires forall wf :: wf in wfs ==> ValidationMap(wf.status).Some?
  {
    Partition(Results(wfs, pods, messages, workspaceExists))
  }

  /** No workflow is left out of the report: each one's result is in the list its errors call for. */
  lemma SplitResultsComplete(wfs: seq<Workflow>, pods: seq<Pod>, messages: set<string>, workspaceExists: string -> bool, wf: Workflow)
    requires forall wf :: wf in wfs ==> ValidationMap(wf.status).Some?
    requires wf in wfs
    ensures var r, x := SplitResults(wfs, pods, messages, workspaceExists), WorkflowResult(wf, pods, messages, workspaceExists);
      if x.errors == [] then x in r.0 else x in r.1
  {
    var rs := Results(wfs, pods, messages, workspaceExists);
    PartitionComplete(rs);
    var k :| 0 <= k < |wfs| && wfs[k] == wf;
    assert rs[k] == WorkflowResult(wf, pods, messages, workspaceExists);
  }

  /** The inner loop of `check_workflows`: every check runs, each failure is kept. */
  method RunChecks(checks: seq<Check>, wf: Workflow, pods: seq<Pod>, messages: set<string>, workspaceExists: string -> bool)
    returns (failed: seq<string>, inSync: bool)
    ensures failed == Failures(checks, wf, pods, messages, workspaceExists)
    ensures inSync == (failed == [])
  {
    failed, inSync := [], true;
    for j := 0 to |checks|
      invariant failed == Failures(checks[..j], wf, pods, messages, workspaceExists)
      invariant inSync == (failed == [])
    {
      assert checks[..j + 1][..j] == checks[..j];
      match RunCheck(checks[j], wf, pods, messages, workspaceExists) {
        case None =>
        case Some(error) =>
          failed := failed + [error];
          inSync := false;
      }
    }
    assert checks[..|checks|] == checks;
  }

  /** The main loop of `check_workflows`, over the selected workflows. */
  method CheckEach(selected: seq<Workflow>, pods: seq<Pod>, messages: set<string>, workspaceExists: string -> bool)
    returns (inSync: seq<CheckResult>, outOfSync: seq<CheckResult>)
    requires forall wf :: wf in selected ==> ValidationMap(wf.status).Some?
    ensures (inSync, outOfSync) == SplitResults(selected, pods, messages, workspaceExists)
  {
    inSync, outOfSync := [], [];
    ghost var results := Results(selected, pods, messages, workspaceExists);
    for i := 0 to |selected|
      invariant (inSync, outOfSync) == Partition(results[..i])
    {
      var wf := selected[i];
      var filteredPods := BatchPods(wf, pods);
      var checks := ValidationMap(wf.status).value;
      var failed, workflowInSync := RunChecks(checks, wf, filteredPods, messages, workspaceExists);
      var result := CheckResult(WorkflowSource(wf), failed);
      assert result == results[i];
      assert results[..i + 1][..i] == results[..i];
      if workflowInSync {
        inSync := inSync + [result];
      } else {
        outOfSync := outOfSync + [result];
      }
    }
    assert results[..|selected|] == results;
  }

  datatype Report = Report(inSync: seq<CheckResult>, outOfSync: seq<CheckResult>, total: nat)

  /**
   * `check_workflows`; `messages` and `pods` are what the queue collector and
   * the pod listing would give, or the error they would raise.
   */
  method CheckWorkflows(all: seq<Workflow>, dateStart: int, dateEnd: Option<int>,
                        messages: Result<set<string>, string>, pods: Result<seq<Pod>, string>,
                        workspaceExists: string -> bool) returns (r: Result<Report, string>)
    ensures var selected := FilterWorkflows(all, dateStart, dateEnd);
      && (|selected| == 0 ==> r == Ok(Report([], [], 0)))
      && (|selected| > 0 && messages.Err? ==> r == Err(MessagesFailed + messages.error))
      && (|selected| > 0 && messages.Ok? && pods.Err? ==> r == Err(PodsFailed + pods.error))
      && (|selected| > 0 && messages.Ok? && pods.Ok? ==>
            var split := SplitResults(selected, pods.value, messages.value, workspaceExists);
            r == Ok(Report(split.0, split.1, |selected|)))
  {
    var selected := FilterWorkflows(all, dateStart, dateEnd);
    var total := |selected|;
    if total == 0 {
      return Ok(Report([], [], 0));
    }
    if messages.Err? {
      return Err(MessagesFailed + messages.error);
    }
    if pods.Err? {
      return Err(PodsFailed + pods.error);
    }
    var inSync, outOfSync := CheckEach(selected, pods.value, messages.value, workspaceExists);
    return Ok(Report(inSync, outOfSync, total));
  }

  /** A workflow is in sync exactly when none of the checks for its status fails. */
  lemma InSyncIffNoCheckFails(wf: Workflow, pods: seq<Pod>, messages: set<string>, workspaceExists: string -> bool)
    requires ValidationMap(wf.status).Some?
    ensures var checks := ValidationMap(wf.status).value;
      WorkflowResult(wf, pods, messages, workspaceExists).errors == [] <==>
        forall k :: 0 <= k < |checks| ==> RunCheck(checks[k], wf, BatchPods(wf, pods), messages, workspaceExists).None?
  {
  }

  /**
   * A queued workflow passes its queue check exactly when some message in the
   * submission queue names it, given that the messages were collected for the
   * selected workflows' ids under `workflow_id_or_name`.
   */
  lemma QueuedIffMessageCollected(wf: Workflow, pods: seq<Pod>, ids: seq<string>, bodies: seq<map<string, Json>>,
                                  workspaceExists: string -> bool)
    requires wf.id in ids
    ensures var messages := Consumer.CollectAll(map[], Some(IdOrNameKey), ids, bodies).Keys;
      RunCheck(MessageInSchedulerQueue, wf, pods, messages, workspaceExists).None? <==>
        exists b :: b in bodies && Consumer.Tag(Some(IdOrNameKey), ids, b) == Some(wf.id)
  {
    Consumer.LastMessageWins(map[], Some(IdOrNameKey), ids, bodies, wf.id);
  }

  // ---------------------------------------------------------------------
  // Interactive sessions

  datatype InteractiveSession = InteractiveSession(id: string, name: string, status: RunStatus, ownerEmail: string)

  /** `interactive_sessions_validation_map`. */
  function SessionChecks(status: RunStatus): Option<seq<PodCheck>>
  {
    if status == Created then Some([OnlyOnePodExists, AllPodsHavePhase(RunningPhase)]) else None
  }

  /** The message of the first failing check only: the checks of a session stop there. */
  function FirstFailure(checks: seq<PodCheck>, pods: seq<Pod>): (r: seq<string>)
    ensures |r| <= 1
    ensures r == [] <==> forall k :: 0 <= k < |checks| ==> RunPodCheck(checks[k], pods).None?
    ensures r != [] ==>
      exists k :: 0 <= k < |checks| && RunPodCheck(checks[k], pods) == Some(r[0]) &&
        forall j :: 0 <= j < k ==> RunPodCheck(checks[j], pods).None?
  {
    if checks == [] then []
    else match RunPodCheck(checks[0], pods)
      case Some(e) => [e]
      case None =>
        var r := FirstFailure(checks[1..], pods);
        assert forall k :: 1 <= k < |checks| ==> checks[k] == checks[1..][k - 1];
        r
  }

  predicate HasSessionName(sessions: seq<InteractiveSession>, pod: Pod)
  {
    exists k :: 0 <= k < |sessions| && IsSubstring(sessions[k].name, pod.name)
  }

  function OrphanResult(pod: Pod): CheckResult
  {
    CheckResult(CheckSource(Some(pod.name), Some(SessionPodName), None, None, None),
      [NoSessionForPod])
  }

  /** The session pods that no session of the database names, in their order. */
  function Orphans(sessionPods: seq<Pod>, sessions: seq<InteractiveSession>): (r: seq<CheckResult>)
    ensures forall pod :: pod in sessionPods && !HasSessionName(sessions, pod) ==> OrphanResult(pod) in r
    ensures forall x :: x in r ==> exists pod :: pod in sessionPods && !HasSessionName(sessions, pod) && x == OrphanResult(pod)
  {
    if sessionPods == [] then []
    else
      var n := |sessionPods| - 1;
      var init := Orphans(sessionPods[..n], sessions);
      assert forall pod :: pod in sessionPods ==> pod in sessionPods[..n] || pod == sessionPods[n];
      if HasSessionName(sessions, sessionPods[n]) then init else init + [OrphanResult(sessionPods[n])]
  }

  function SessionResult(s: InteractiveSession, sessionPods: seq<Pod>): CheckResult
    requires SessionChecks(s.status).Some?
  {
    CheckResult(CheckSource(Some(s.id), Some(s.name), Some(s.ownerEmail), Some(s.status), None),
      FirstFailure(SessionChecks(s.status).value, PodsNamed(sessionPods, s.name)))
  }

  function SplitSessions(sessions: seq<InteractiveSession>, sessionPods: seq<Pod>): (r: (seq<CheckResult>, seq<CheckResult>))
    requires forall s :: s in sessions ==> SessionChecks(s.status).Some?
    ensures |r.0| + |r.1| == |sessions|
    ensures forall x :: x in r.0 ==> x.errors == []
    ensures forall x :: x in r.1 ==> |x.errors| == 1
  {
    if sessions == [] then ([], [])
    else
      var n := |sessions| - 1;
      var init := SplitSessions(sessions[..n], sessionPods);
      var x := SessionResult(sessions[n], sessionPods);
      if x.errors == [] then (init.0 + [x], init.1) else (init.0, init.1 + [x])
  }

  lemma SplitSessionsStep(sessions: seq<InteractiveSession>, sessionPods: seq<Pod>, i: nat)
    requires forall s :: s in sessions ==> SessionChecks(s.status).Some?
    requires i < |sessions|
    ensures forall s :: s in sessions[..i] ==> SessionChecks(s.status).Some?
    ensures var init, x := SplitSessions(sessions[..i], sessionPods), SessionResult(sessions[i], sessionPods);
      SplitSessions(sessions[..i + 1], sessionPods) == if x.errors == [] then (init.0 + [x], init.1) else (init.0, init.1 + [x])
  {
    assert sessions[..i + 1][..i] == sessions[..i];
    assert forall s :: s in sessions[..i + 1] ==> s in sessions;
  }

  function FilterSessions(all: seq<InteractiveSession>): (r: seq<InteractiveSession>)
    ensures forall s :: s in r <==> s in all && SessionChecks(s.status).Some?
  {
    if all == [] then []
    else if SessionChecks(all[0].status).Some? then [all[0]] + FilterSessions(all[1..])
    else FilterSessions(all[1..])
  }

  /** The first loop of `check_interactive_sessions`: session pods without a session. */
  method FindOrphans(sessionPods: seq<Pod>, sessions: seq<InteractiveSession>) returns (orphans: seq<CheckResult>)
    ensures orphans == Orphans(sessionPods, sessions)
  {
    orphans := [];
    for i := 0 to |sessionPods|
      invariant orphans == Orphans(sessionPods[..i], sessions)
    {
      assert sessionPods[..i + 1][..i] == sessionPods[..i];
      if !HasSessionName(sessions, sessionPods[i]) {
        orphans := orphans + [OrphanResult(sessionPods[i])];
      }
    }
    assert sessionPods[..|sessionPods|] == sessionPods;
  }

  /** The checks of one session, up to and including the first that fails. */
  method RunSessionChecks(checks: seq<PodCheck>, pods: seq<Pod>) returns (failed: seq<string>, inSync: bool)
    ensures failed == FirstFailure(checks, pods)
    ensures inSync == (failed == [])
  {
    failed, inSync := [], true;
    var j := 0;
    while j < |checks|
      invariant 0 <= j <= |checks|
      invariant FirstFailure(checks[j..], pods) == FirstFailure(checks, pods)
    {
      match RunPodCheck(checks[j], pods) {
        case None =>
          assert checks[j..][1..] == checks[j + 1..];
          j := j + 1;
        case Some(error) =>
          failed := failed + [error];
          inSync := false;
          return;
      }
    }
    assert checks[j..] == [];
  }

  datatype SessionReport = SessionReport(inSync: seq<CheckResult>, outOfSync: seq<CheckResult>,
                                         podsWithoutSession: seq<CheckResult>, total: nat)

  /** `check_interactive_sessions`. */
  method CheckInteractiveSessions(all: seq<InteractiveSession>, pods: Result<seq<Pod>, string>) returns (r: Result<SessionReport, string>)
    ensures pods.Err? ==> r == Err(PodsFailed + pods.error)
    ensures pods.Ok? ==>
      var sessions := FilterSessions(all);
      var sessionPods := PodsNamed(pods.value, SessionPodPart);
      var split := SplitSessions(sessions, sessionPods);
      r == Ok(SessionReport(split.0, split.1, Orphans(sessionPods, sessions), |sessions|))
  {
    var sessions := FilterSessions(all);
    var total := |sessions|;
    if pods.Err? {
      return Err(PodsFailed + pods.error);
    }
    var inSync: seq<CheckResult> := [];
    var outOfSync: seq<CheckResult> := [];
    var withoutSession: seq<CheckResult>;
    var sessionPods := PodsNamed(pods.value, SessionPodPart);
    withoutSession := FindOrphans(sessionPods, sessions);
    for i := 0 to |sessions|
      invariant (inSync, outOfSync) == SplitSessions(sessions[..i], sessionPods)
    {
      var session := sessions[i];
      var filteredPods := PodsNamed(sessionPods, session.name);
      var checks := SessionChecks(session.status).value;
      var failed, sessionInSync := RunSessionChecks(checks, filteredPods);
      var result := CheckResult(CheckSource(Some(session.id), Some(session.name), Some(session.ownerEmail), Some(session.status), None), failed);
      SplitSessionsStep(sessions, sessionPods, i);
      assert result == SessionResult(sessions[i], sessionPods);
      if sessionInSync {
        inSync := inSync + [result];
      } else {
        outOfSync := outOfSync + [result];
      }
    }
    assert sessions[..|sessions|] == sessions;
    return Ok(SessionReport(inSync, outOfSync, withoutSession, total));
  }

  // ---------------------------------------------------------------------
  // Workspaces

  /** A directory under `<shared volume>/users`: its name and its `workflows` listing, if it has one. */
  datatype UserDirectory = UserDirectory(name: string, workflows: Option<seq<string>>)

  function UserWorkspaces(usersRoot: Path, d: UserDirectory): (r: set<Path>)
    ensures forall p :: p in r ==> |p| >= 3 && p[..|p| - 3] == usersRoot && p[|p| - 2] == WorkflowsDir
  {
    match d.workflows
    case None => {}
    case Some(children) => set w | w in children :: usersRoot + [d.name, WorkflowsDir, w]
  }

  /** The workspace directories found on the shared volume. */
  function DiskWorkspaces(usersRoot: Path, dirs: seq<UserDirectory>): (r: set<Path>)
    ensures forall p :: p in r ==> |p| >= 3 && p[..|p| - 3] == usersRoot && p[|p| - 2] == WorkflowsDir
  {
    if dirs == [] then {}
    else DiskWorkspaces(usersRoot, dirs[..|dirs| - 1]) + UserWorkspaces(usersRoot, dirs[|dirs| - 1])
  }

  function ExtraErrors(wf: Option<Workflow>): (r: seq<string>)
    ensures |r| == (if wf.Some? then 2 else 1)
    ensures r[0] == NotOwned
  {
    [NotOwned]
      + (if wf.Some? then [RelatedPrefix + wf.value.workspacePath + RelatedSuffix] else [])
  }

  /**
   * The result for a workspace no workflow owns. The owner and the workflow
   * are looked up by the workspace's user and workflow parts; a lookup that
   * finds nothing, or whose id is not a UUID, gives `None`.
   */
  function ExtraResult(p: Path, userEmail: string -> Option<string>, workflowById: string -> Option<Workflow>): CheckResult
    requires |p| >= 3
  {
    var userId, workflowId := p[|p| - 3], p[|p| - 1];
    var wf := workflowById(workflowId);
    CheckResult(
      CheckSource(
        if wf.Some? then Some(wf.value.id) else None,
        if wf.Some? then Some(wf.value.name) else None,
        userEmail(userId),
        if wf.Some? then Some(wf.value.status) else None,
        Some(PathString(p))),
      ExtraErrors(wf))
  }

  function ExtraResults(paths: seq<Path>, userEmail: string -> Option<string>, workflowById: string -> Option<Workflow>): (r: seq<CheckResult>)
    requires forall p :: p in paths ==> |p| >= 3
    ensures |r| == |paths|
    ensures forall i :: 0 <= i < |paths| ==> r[i] == ExtraResult(paths[i], userEmail, workflowById)
  {
    if paths == [] then []
    else [ExtraResult(paths[0], userEmail, workflowById)] + ExtraResults(paths[1..], userEmail, workflowById)
  }

  /** The workspaces on disk that the database does not know, in `sorted` order. */
  ghost function ExtraWorkspaces(usersRoot: Path, dirs: seq<UserDirectory>, dbPaths: set<string>): (r: seq<Path>)
    ensures forall p :: p in r <==> p in DiskWorkspaces(usersRoot, dirs) && p !in DbWorkspaces(dbPaths)
    ensures Sorted(r)
    ensures forall p :: p in r ==> |p| >= 3
  {
    SortSet(DiskWorkspaces(usersRoot, dirs) - DbWorkspaces(dbPaths))
  }

  function DbWorkspaces(dbPaths: set<string>): set<Path>
  {
    set s | s in dbPaths :: ToPath(s)
  }

  /** The first loop of `check_workspaces`: every `<user>/workflows/<workflow>` directory. */
  method CollectWorkspaces(usersRoot: Path, dirs: seq<UserDirectory>) returns (onDisk: set<Path>)
    ensures onDisk == DiskWorkspaces(usersRoot, dirs)
  {
    onDisk := {};
    for i := 0 to |dirs|
      invariant onDisk == DiskWorkspaces(usersRoot, dirs[..i])
    {
      assert dirs[..i + 1][..i] == dirs[..i];
      match dirs[i].workflows {
        case None =>
        case Some(children) =>
          onDisk := onDisk + set w | w in children :: usersRoot + [dirs[i].name, WorkflowsDir, w];
      }
    }
    assert dirs[..|dirs|] == dirs;
  }

  /** The second loop of `check_workspaces`: one result per extra workspace, in order. */
  method ReportExtra(sorted: seq<Path>, userEmail: string -> Option<string>, workflowById: string -> Option<Workflow>)
    returns (extra: seq<CheckResult>)
    requires forall p :: p in sorted ==> |p| >= 3
    ensures extra == ExtraResults(sorted, userEmail, workflowById)
  {
    extra := [];
    for i := 0 to |sorted|
      invariant |extra| == i
      invariant forall k :: 0 <= k < i ==> extra[k] == ExtraResult(sorted[k], userEmail, workflowById)
    {
      extra := extra + [ExtraResult(sorted[i], userEmail, workflowById)];
    }
  }

  /** `check_workspaces`. */
  method CheckWorkspaces(usersRoot: Path, dirs: seq<UserDirectory>, dbPaths: set<string>,
                         userEmail: string -> Option<string>, workflowById: string -> Option<Workflow>)
    returns (extra: seq<CheckResult>)
    ensures extra == ExtraResults(ExtraWorkspaces(usersRoot, dirs, dbPaths), userEmail, workflowById)
  {
    var onDisk := CollectWorkspaces(usersRoot, dirs);
    var inDb := set s | s in dbPaths :: ToPath(s);
    var sorted := SortPaths(onDisk - inDb);
    extra := ReportExtra(sorted, userEmail, workflowById);
  }
}
