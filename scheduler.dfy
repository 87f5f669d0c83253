// The workflow-submission consumer: every message is acknowledged at once,
// then the workflow is started through the workflow controller when the
// system is ready, and re-published to the queue when it could not start.
module Scheduler {
  import opened Wrappers

  /** A decoded workflow submission: the keyword arguments of `set_workflow_status`. */
  type Submission = map<string, Json>

  /** What the call to the workflow controller's `set_workflow_status` came back with. */
  datatype RwcOutcome =
    | Responded(statusCode: int)   // a response whose body decoded as JSON
    | BadGateway                   // `HTTPBadGateway`
    | NotFound                     // `HTTPNotFound`
    | OtherError                   // any other exception, including a body that is not JSON

  /**
   * The effects of the scheduler, in the order they happen. A `Publish` is an
   * attempted publish: one that fails is only logged, and the handler goes on.
   */
  datatype Event =
    | Ack
    | CallRwc(arguments: Submission)
    | Publish(user: Json, workflowIdOrName: Json, parameters: Json)

  function Publishes(events: seq<Event>): nat
  {
    if events == [] then 0 else (if events[0].Publish? then 1 else 0) + Publishes(events[1..])
  }

  function Calls(events: seq<Event>): nat
  {
    if events == [] then 0 else (if events[0].CallRwc? then 1 else 0) + Calls(events[1..])
  }

  lemma {:induction false} CountsConcat(a: seq<Event>, b: seq<Event>)
    ensures Publishes(a + b) == Publishes(a) + Publishes(b)
    ensures Calls(a + b) == Calls(a) + Calls(b)
  {
    if a == [] {
      assert a + b == b;
    } else {
      CountsConcat(a[1..], b);
      assert (a + b)[1..] == a[1..] + b;
    }
  }

  /** The three keys `requeue_workflow` reads; a missing one is a logged `KeyError`. */
  predicate HasRequeueKeys(kwargs: Submission)
  {
    "user" in kwargs && "workflow_id_or_name" in kwargs && "parameters" in kwargs
  }

  /** What `requeue_workflow(**kwargs)` does: at most one publish, of the three fields only. */
  function RequeueEvents(kwargs: Submission): (r: seq<Event>)
    ensures Calls(r) == 0 && Ack !in r
    ensures Publishes(r) == (if HasRequeueKeys(kwargs) then 1 else 0)
    ensures forall e :: e in r ==>
      HasRequeueKeys(kwargs) && e == Publish(kwargs["user"], kwargs["workflow_id_or_name"], kwargs["parameters"])
  {
    if HasRequeueKeys(kwargs) then [Publish(kwargs["user"], kwargs["workflow_id_or_name"], kwargs["parameters"])]
    else []
  }

  /** The submission with its status set to `start`, as it is forwarded. */
  function Forwarded(s: Submission): (r: Submission)
    ensures "status" in r && r["status"] == JStr("start")
    ensures r.Keys == s.Keys + {"status"}
    ensures forall k :: k in s && k != "status" ==> r[k] == s[k]
  {
    s["status" := JStr("start")]
  }

  /** Whether an outcome leaves the workflow to be re-published: neither started nor missing. */
  predicate Requeues(rwc: RwcOutcome)
  {
    !(rwc.Responded? && rwc.statusCode == 200) && !rwc.NotFound?
  }

  /**
   * The effects of consuming one message. `body` is `None` when the message
   * is not a JSON object: not JSON at all, or a list, a string or a number,
   * on which setting `status` or reading `workflow_id_or_name` raises after
   * the ack. `ready` is the answer of `reana_ready()`.
   */
  function Trace(body: Option<Submission>, ready: bool, rwc: RwcOutcome): (r: seq<Event>)
  {
    [Ack] + match body
      case None => []
      case Some(s) =>
        if ready then [CallRwc(Forwarded(s))] + (if Requeues(rwc) then RequeueEvents(Forwarded(s)) else [])
        else if "workflow_id_or_name" in s then RequeueEvents(s)
        else []
  }

  /** Whether consuming the message ends in an exception out of `on_message`. */
  predicate Raises(body: Option<Submission>, ready: bool)
  {
    body.None? || (!ready && "workflow_id_or_name" !in body.value)
  }

  class WorkflowExecutionScheduler {
    /** Everything the scheduler has done so far. */
    var events: seq<Event>

    constructor ()
      ensures events == []
    {
      events := [];
    }

    /** `requeue_workflow`: publishes user, workflow and parameters; a failure is only logged. */
    method RequeueWorkflow(kwargs: Submission)
      modifies this
      ensures events == old(events) + RequeueEvents(kwargs)
    {
      if "user" in kwargs && "workflow_id_or_name" in kwargs && "parameters" in kwargs {
        events := events + [Publish(kwargs["user"], kwargs["workflow_id_or_name"], kwargs["parameters"])];
      }
    }

    /** `on_message`; `raised` tells whether the handler ended in an exception. */
    method OnMessage(body: Option<Submission>, ready: bool, rwc: RwcOutcome) returns (raised: bool)
      modifies this
      ensures events == old(events) + Trace(body, ready, rwc)
      ensures raised <==> Raises(body, ready)
    {
      events := events + [Ack];
      if body.None? {
        return true;
      }
      var submission := body.value;
      if ready {
        submission := submission["status" := JStr("start")];
        var requeue, started := true, false;
        events := events + [CallRwc(submission)];
        match rwc {
          case Responded(code) =>
            if code == 200 {
              started := true;
            }
          case BadGateway =>
          case NotFound =>
            requeue := false;
          case OtherError =>
        }
        if !started && requeue {
          RequeueWorkflow(submission);
        }
        raised := false;
      } else {
        if "workflow_id_or_name" !in submission {
          return true;
        }
        RequeueWorkflow(submission);
        raised := false;
      }
    }
  }

  /** Every message is acknowledged before anything else happens, and only once. */
  lemma AckFirst(body: Option<Submission>, ready: bool, rwc: RwcOutcome)
    ensures var t := Trace(body, ready, rwc); t[0] == Ack && Ack !in t[1..]
  {
  }

  /** Not ready: the controller is not called, and the submission is re-published exactly once. */
  lemma NotReadyRequeuesOnce(s: Submission, rwc: RwcOutcome)
    requires HasRequeueKeys(s)
    ensures Calls(Trace(Some(s), false, rwc)) == 0
    ensures Publishes(Trace(Some(s), false, rwc)) == 1
  {
    CountsConcat([Ack], RequeueEvents(s));
  }

  /** Ready: the controller is called once, with the status set to `start`. */
  lemma ReadyCallsOnce(s: Submission, rwc: RwcOutcome)
    ensures Calls(Trace(Some(s), true, rwc)) == 1
    ensures CallRwc(Forwarded(s)) in Trace(Some(s), true, rwc)
  {
    var rest := if Requeues(rwc) then RequeueEvents(Forwarded(s)) else [];
    CountsConcat([CallRwc(Forwarded(s))], rest);
    CountsConcat([Ack], [CallRwc(Forwarded(s))] + rest);
    assert Trace(Some(s), true, rwc)[1] == CallRwc(Forwarded(s));
  }

  /**
   * Ready: the submission is re-published exactly once unless the controller
   * answered 200 or `HTTPNotFound`, in which case it is not re-published at all.
   */
  lemma ReadyRequeuesUnlessStartedOrMissing(s: Submission, rwc: RwcOutcome)
    requires HasRequeueKeys(s)
    ensures Publishes(Trace(Some(s), true, rwc)) == (if Requeues(rwc) then 1 else 0)
    ensures rwc == Responded(200) || rwc == NotFound ==> Publishes(Trace(Some(s), true, rwc)) == 0
  {
    var rest := if Requeues(rwc) then RequeueEvents(Forwarded(s)) else [];
    CountsConcat([CallRwc(Forwarded(s))], rest);
    CountsConcat([Ack], [CallRwc(Forwarded(s))] + rest);
  }

  /** A re-published submission carries exactly the user, workflow and parameters it came with. */
  lemma RequeueCarriesFields(body: Option<Submission>, ready: bool, rwc: RwcOutcome, e: Event)
    requires e in Trace(body, ready, rwc) && e.Publish?
    ensures body.Some? && HasRequeueKeys(body.value)
    ensures e == Publish(body.value["user"], body.value["workflow_id_or_name"], body.value["parameters"])
  {
  }

  /** A message that is not a JSON object is acknowledged and dropped: nothing else happens. */
  lemma UndecodableDropped(ready: bool, rwc: RwcOutcome)
    ensures Trace(None, ready, rwc) == [Ack]
  {
  }

  /** The payload the submission publisher sends: the three fields under their own keys. */
  function Payload(user: Json, workflowIdOrName: Json, parameters: Json): (r: Submission)
    ensures HasRequeueKeys(r)
    ensures r["user"] == user && r["workflow_id_or_name"] == workflowIdOrName && r["parameters"] == parameters
  {
    map["user" := user, "workflow_id_or_name" := workflowIdOrName, "parameters" := parameters]
  }

  /**
   * Re-publishing is stable: a re-published payload, consumed again while the
   * system is still not ready, is re-published with the same three fields.
   */
  lemma {:induction false} RequeueIsStable(s: Submission, rwc: RwcOutcome)
    requires HasRequeueKeys(s)
    ensures var p := Payload(s["user"], s["workflow_id_or_name"], s["parameters"]);
      Trace(Some(p), false, rwc) == Trace(Some(s), false, rwc)
  {
    var p := Payload(s["user"], s["workflow_id_or_name"], s["parameters"]);
    assert RequeueEvents(p) == RequeueEvents(s);
  }
}
