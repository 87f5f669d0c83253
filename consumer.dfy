// The administrative queue consumers: one that removes selected messages
// from a queue (asking the operator when interactive), and one that only
// collects selected messages by a key and puts every message back.
module Consumer {
  import opened Wrappers
  import opened Text

  datatype UserDecision = DeleteMessage | KeepMessage | StopConsumer

  /** What happened to one delivered message. */
  datatype Outcome =
    | Acked               // `message.ack()`: removed from the queue
    | Requeued            // `message.reject(requeue=True)`
    | Untouched           // neither acked nor rejected; the consumer stops
    | Raised              // the handler ended in an exception

  /**
   * The decision an answer stands for, or `None` when the prompt is repeated.
   * Only ASCII letters lower-case to the accepted words, so ASCII lower-casing
   * decides exactly as `str.lower` does.
   */
  function AnswerDecision(answer: string): (r: Option<UserDecision>)
    ensures r == Some(DeleteMessage) <==> Lower(answer) == "yes" || Lower(answer) == "y"
    ensures r == Some(KeepMessage) <==> Lower(answer) == "no" || Lower(answer) == "n"
    ensures r == Some(StopConsumer) <==> Lower(answer) == "stop" || Lower(answer) == "s"
  {
    var a := Lower(answer);
    if a == "yes" || a == "y" then Some(DeleteMessage)
    else if a == "no" || a == "n" then Some(KeepMessage)
    else if a == "stop" || a == "s" then Some(StopConsumer)
    else None
  }

  lemma {:induction false} LowerOfUpper(s: string)
    ensures Lower(Upper(s)) == Lower(s)
  {
    if s != [] {
      LowerOfUpper(s[1..]);
      assert Upper(s) == [UpperChar(s[0])] + Upper(s[1..]);
    }
  }

  /** Answers are read without regard to case. */
  lemma AnswerCaseInsensitive(answer: string)
    ensures AnswerDecision(Upper(answer)) == AnswerDecision(answer)
  {
    LowerOfUpper(answer);
  }

  /** The index of the first answer that is understood, if any. */
  function FirstAnswer(answers: seq<string>): (r: Option<nat>)
    ensures r.Some? ==> r.value < |answers| && AnswerDecision(answers[r.value]).Some?
    ensures r.Some? ==> forall j :: 0 <= j < r.value ==> AnswerDecision(answers[j]).None?
    ensures r.None? ==> forall j :: 0 <= j < |answers| ==> AnswerDecision(answers[j]).None?
  {
    if answers == [] then None
    else if AnswerDecision(answers[0]).Some? then Some(0)
    else match FirstAnswer(answers[1..])
      case None => None
      case Some(k) => Some(k + 1)
  }

  /**
   * `ask_user`, reading lines from `answers`: it re-prompts until an answer is
   * understood; `None` when the input runs out first (an `EOFError`).
   */
  method AskUser(answers: seq<string>) returns (decision: Option<UserDecision>, rest: seq<string>)
    ensures FirstAnswer(answers).None? ==> decision.None? && rest == []
    ensures FirstAnswer(answers).Some? ==>
      var k := FirstAnswer(answers).value;
      decision == AnswerDecision(answers[k]) && rest == answers[k + 1..]
  {
    var i := 0;
    while i < |answers|
      invariant 0 <= i <= |answers|
      invariant forall j :: 0 <= j < i ==> AnswerDecision(answers[j]).None?
    {
      var d := AnswerDecision(answers[i]);
      if d.Some? {
        return d, answers[i + 1..];
      }
      i := i + 1;
    }
    return None, [];
  }

  function Act(d: UserDecision): Outcome
  {
    match d
    case DeleteMessage => Acked
    case KeepMessage => Requeued
    case StopConsumer => Untouched
  }

  /** `msg_body.get(key, "")` for a decoded object. */
  function ValueOf(key: Option<string>, fields: map<string, Json>): Json
  {
    GetOrDefault(fields, key, JStr(""))
  }

  /** `value in values`: only a string can equal one of the listed strings. */
  predicate Selected(key: Option<string>, values: seq<string>, fields: map<string, Json>)
  {
    var v := ValueOf(key, fields);
    v.JStr? && v.s in values
  }

  class MessageConsumer {
    const key: Option<string>
    const valuesToDelete: seq<string>
    const isInteractive: bool
    var shouldStop: bool
    /** The operator's remaining lines of input. */
    var input: seq<string>

    constructor (key: Option<string>, valuesToDelete: seq<string>, isInteractive: bool, input: seq<string>)
      ensures this.key == key && this.valuesToDelete == valuesToDelete && this.isInteractive == isInteractive
      ensures !shouldStop && this.input == input
    {
      this.key := key;
      this.valuesToDelete := valuesToDelete;
      this.isInteractive := isInteractive;
      shouldStop := false;
      this.input := input;
    }

    /** Whether a message with this body is one the operator is asked about. */
    predicate Prompts(body: Json)
    {
      isInteractive && (key.None? || (body.JObject? && Selected(key, valuesToDelete, body.fields)))
    }

    /** `on_message`; `body` is `None` when the message is not JSON. */
    method OnMessage(body: Option<Json>) returns (outcome: Outcome)
      modifies this
      ensures body.None? || (key.Some? && !body.value.JObject?) ==>
        outcome == Raised && input == old(input) && shouldStop == old(shouldStop)
      ensures body.Some? && !Prompts(body.value) && (key.None? || body.value.JObject?) ==>
        && input == old(input) && shouldStop == old(shouldStop)
        && outcome == (if key.Some? && Selected(key, valuesToDelete, body.value.fields) then Acked else Requeued)
      ensures body.Some? && Prompts(body.value) && FirstAnswer(old(input)).None? ==>
        outcome == Raised && input == [] && shouldStop == old(shouldStop)
      ensures body.Some? && Prompts(body.value) && FirstAnswer(old(input)).Some? ==>
        var k := FirstAnswer(old(input)).value;
        var d := AnswerDecision(old(input)[k]).value;
        && outcome == Act(d) && input == old(input)[k + 1..]
        && shouldStop == (old(shouldStop) || d == StopConsumer)
    {
      if body.None? {
        return Raised;
      }
      var decision: Option<UserDecision> := Some(KeepMessage);
      if key.Some? {
        if !body.value.JObject? {
          return Raised;
        }
        if Selected(key, valuesToDelete, body.value.fields) {
          decision := Some(DeleteMessage);
          if isInteractive {
            decision, input := AskUser(input);
          }
        }
      } else if isInteractive {
        decision, input := AskUser(input);
      }
      match decision {
        case None =>
          outcome := Raised;
        case Some(d) =>
          if d == StopConsumer {
            shouldStop := true;
          }
          outcome := Act(d);
      }
    }
  }

  // ---------------------------------------------------------------------
  // Collecting consumer

  /** The key value a body is collected under, if it is collected at all. */
  function Tag(key: Option<string>, values: seq<string>, fields: map<string, Json>): (r: Option<string>)
    ensures r.Some? <==> Selected(key, values, fields)
    ensures r.Some? ==> r.value in values && ValueOf(key, fields) == JStr(r.value)
  {
    if Selected(key, values, fields) then Some(ValueOf(key, fields).s) else None
  }

  /** The collection after one more message. */
  function CollectStep(m: map<string, Json>, key: Option<string>, values: seq<string>, fields: map<string, Json>): map<string, Json>
  {
    match Tag(key, values, fields)
    case None => m
    case Some(v) => m[v := JObject(fields)]
  }

  /** The collection after a run of messages, in delivery order. */
  function CollectAll(m: map<string, Json>, key: Option<string>, values: seq<string>, bodies: seq<map<string, Json>>): map<string, Json>
    decreases |bodies|
  {
    if bodies == [] then m else CollectAll(CollectStep(m, key, values, bodies[0]), key, values, bodies[1..])
  }

  /** The last body of the run that is collected under `v`. */
  function LastTagged(key: Option<string>, values: seq<string>, bodies: seq<map<string, Json>>, v: string): (r: Option<map<string, Json>>)
    ensures r.Some? ==> r.value in bodies && Tag(key, values, r.value) == Some(v)
    ensures r.None? ==> forall b :: b in bodies ==> Tag(key, values, b) != Some(v)
  {
    if bodies == [] then None
    else if Tag(key, values, bodies[|bodies| - 1]) == Some(v) then Some(bodies[|bodies| - 1])
    else LastTagged(key, values, bodies[..|bodies| - 1], v)
  }

  lemma {:induction false} CollectAllSnoc(m: map<string, Json>, key: Option<string>, values: seq<string>,
                                           bodies: seq<map<string, Json>>, b: map<string, Json>)
    ensures CollectAll(m, key, values, bodies + [b]) == CollectStep(CollectAll(m, key, values, bodies), key, values, b)
    decreases |bodies|
  {
    if bodies == [] {
      assert [] + [b] == [b];
    } else {
      CollectAllSnoc(CollectStep(m, key, values, bodies[0]), key, values, bodies[1..], b);
      assert (bodies + [b])[1..] == bodies[1..] + [b];
    }
  }

  /**
   * A value is collected exactly when some message carries it (or it was
   * collected before), and a later message overwrites an earlier one.
   */
  lemma {:induction false} LastMessageWins(m: map<string, Json>, key: Option<string>, values: seq<string>,
                                            bodies: seq<map<string, Json>>, v: string)
    ensures var c, last := CollectAll(m, key, values, bodies), LastTagged(key, values, bodies, v);
      && (v in c <==> v in m || last.Some?)
      && (last.Some? ==> c[v] == JObject(last.value))
      && (last.None? && v in m ==> c[v] == m[v])
    decreases |bodies|
  {
    if bodies != [] {
      var init, b := bodies[..|bodies| - 1], bodies[|bodies| - 1];
      assert bodies == init + [b];
      CollectAllSnoc(m, key, values, init, b);
      LastMessageWins(m, key, values, init, v);
    }
  }

  /** Only listed values are ever collected. */
  lemma {:induction false} CollectsOnlyListed(m: map<string, Json>, key: Option<string>, values: seq<string>,
                                               bodies: seq<map<string, Json>>, v: string)
    requires v in CollectAll(m, key, values, bodies) && v !in m
    ensures v in values
  {
    LastMessageWins(m, key, values, bodies, v);
  }

  class CollectingConsumer {
    const key: Option<string>
    const valuesToCollect: seq<string>
    var messages: map<string, Json>
    var shouldStop: bool

    constructor (key: Option<string>, valuesToCollect: seq<string>)
      ensures this.key == key && this.valuesToCollect == valuesToCollect
      ensures messages == map[] && !shouldStop
    {
      this.key := key;
      this.valuesToCollect := valuesToCollect;
      messages := map[];
      shouldStop := false;
    }

    /** `on_consume_ready` and `on_iteration`: stop once the passive declare counts no message. */
    method OnIteration(msgCount: nat)
      modifies this
      ensures shouldStop == (old(shouldStop) || msgCount == 0)
      ensures messages == old(messages)
    {
      if msgCount == 0 {
        shouldStop := true;
      }
    }

    /** `on_message`: collect the body if selected, and always put the message back. */
    method OnMessage(body: Option<Json>) returns (outcome: Outcome)
      modifies this
      ensures body.None? || !body.value.JObject? ==> outcome == Raised && messages == old(messages)
      ensures body.Some? && body.value.JObject? ==>
        outcome == Requeued && messages == CollectStep(old(messages), key, valuesToCollect, body.value.fields)
      ensures shouldStop == old(shouldStop)
    {
      if body.None? || !body.value.JObject? {
        return Raised;
      }
      var fields := body.value.fields;
      var value := ValueOf(key, fields);
      if value.JStr? && value.s in valuesToCollect {
        messages := messages[value.s := body.value];
      }
      outcome := Requeued;
    }
  }
}
