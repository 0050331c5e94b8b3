/** One dispatch: the calls of the worker, what becomes of the node, and its verification. */
module Dispatch {
  import opened Wrappers
  import opened Text
  import opened Dag
  import opened Events
  import opened RetryLattice

  // ----- What a course of calls comes to

  /** The output of the last failing call, or `before`. */
  function LastFailure(replies: seq<Reply>, before: Option<string>): Option<string> {
    if replies == [] then before
    else
      var r := replies[|replies| - 1];
      if r.Output? && !r.success then Some(r.text) else LastFailure(replies[..|replies| - 1], before)
  }

  function LastFailureOf(visits: seq<Visit>): Option<string> {
    if visits == [] then None
    else LastFailure(visits[|visits| - 1].replies, LastFailureOf(visits[..|visits| - 1]))
  }

  function AttemptsOf(visits: seq<Visit>): nat {
    if visits == [] then 0 else |visits[|visits| - 1].replies|
  }

  /** The state the calls lead to, before verification. */
  function Settled(node: Node, visits: seq<Visit>): NodeState {
    if visits != [] && Finished(node, visits[|visits| - 1]) then
      var last := visits[|visits| - 1];
      match last.replies[|last.replies| - 1]
      case Output(text, _, _, _) => NodeState(Done, Some(last.model.name), |last.replies|, Some(text))
      case _ => NodeState(Failed, None, 0, Some("node " + node.id + " model " + last.model.name + " attempt " + Decimal(|last.replies|) + " timed out"))
    else NodeState(Failed, None, 0, LastFailureOf(visits))
  }

  function OutcomeEvents(node: Node, model: string, attempt: nat, r: Reply): seq<DispatchEvent> {
    if !r.Output? then []
    else if r.success then
      if !Accepted(node, r) && attempt < node.retry.attempts then [DispatchEvent.Retry(attempt)] else []
    else if r.retryable then
      if attempt < node.retry.attempts && node.retry.backoffMs > 0 then [BackoffRetry(attempt)] else [RetryExhausted(model)]
    else if attempt < node.retry.attempts then [DispatchEvent.Retry(attempt)] else []
  }

  /** Every output is recorded against the budget, and the budget's answer reported. */
  function BudgetEvents(a: Answer): seq<DispatchEvent> {
    [CountersUpdated(a.modelCalls, a.totalTokens)] + if a.breach.Some? then [CeilingTripped(a.breach.value)] else []
  }

  function ReplyEvents(node: Node, env: Env, model: string, attempt: nat, r: Reply, ask: nat): seq<DispatchEvent> {
    (if r.Output? then BudgetEvents(env.budget(ask, Usage(node.id, r.usage))) else []) + OutcomeEvents(node, model, attempt, r)
  }

  function VisitEvents(node: Node, env: Env, model: string, replies: seq<Reply>, ask: nat): seq<DispatchEvent> {
    if replies == [] then []
    else
      var front := replies[..|replies| - 1];
      VisitEvents(node, env, model, front, ask) + ReplyEvents(node, env, model, |replies|, replies[|replies| - 1], ask + OutputsIn(front))
  }

  /** Everything a dispatch reports about its calls, in order. */
  function Narrated(node: Node, env: Env, visits: seq<Visit>, ask: nat): seq<DispatchEvent> {
    if visits == [] then []
    else
      var front, last := visits[..|visits| - 1], visits[|visits| - 1];
      Narrated(node, env, front, ask)
        + (if front == [] then [] else [Fallback(front[|front| - 1].model.name, last.model.name)])
        + VisitEvents(node, env, last.model.name, last.replies, ask + TotalOutputs(front))
  }

  // ----- The attempts on one model

  /** What is known of a visit while it goes on: every earlier reply asked for another attempt. */
  ghost predicate Visiting(node: Node, env: Env, model: ModelRef, replies: seq<Reply>) {
    && |replies| <= node.retry.attempts
    && forall i | 0 <= i < |replies| ::
      && replies[i] == env.run(node.id, node.prompt, model.name, i + 1)
      && !Finishes(node, replies[i])
      && (i + 1 < node.retry.attempts ==> Retries(node, i + 1, replies[i]))
  }

  lemma VisitingOn(node: Node, env: Env, model: ModelRef, replies: seq<Reply>, r: Reply)
    requires Visiting(node, env, model, replies) && |replies| < node.retry.attempts
    requires r == env.run(node.id, node.prompt, model.name, |replies| + 1)
    ensures !Finishes(node, r) && (|replies| + 1 == node.retry.attempts || Retries(node, |replies| + 1, r)) ==> Visiting(node, env, model, replies + [r])
    ensures !Retries(node, |replies| + 1, r) ==> VisitOk(node, env, Visit(model, replies + [r]))
  {
    hide Retries, Finishes;
    var all := replies + [r];
    assert forall i | 0 <= i < |replies| :: all[i] == replies[i];
  }

  lemma VisitedAll(node: Node, env: Env, model: ModelRef, replies: seq<Reply>)
    requires Visiting(node, env, model, replies) && |replies| == node.retry.attempts
    ensures VisitOk(node, env, Visit(model, replies)) && !Finished(node, Visit(model, replies))
  {
  }

  lemma ReplyRecorded(node: Node, env: Env, model: string, replies: seq<Reply>, r: Reply, ask: nat, before: Option<string>)
    ensures var all := replies + [r];
      && OutputsIn(all) == OutputsIn(replies) + (if r.Output? then 1 else 0)
      && VisitEvents(node, env, model, all, ask) == VisitEvents(node, env, model, replies, ask) + ReplyEvents(node, env, model, |all|, r, ask + OutputsIn(replies))
      && LastFailure(all, before) == (if r.Output? && !r.success then Some(r.text) else LastFailure(replies, before))
  {
    hide ReplyEvents;
    assert (replies + [r])[..|replies|] == replies;
  }

  lemma EventsAssoc(a: seq<DispatchEvent>, b: seq<DispatchEvent>, c: seq<DispatchEvent>)
    ensures a + b + c == a + (b + c)
  {
  }

  /** The retry loop on one model. */
  method VisitModel(node: Node, env: Env, model: ModelRef, ask: nat, failure: Option<string>)
    returns (replies: seq<Reply>, events: seq<DispatchEvent>, failure': Option<string>)
    ensures VisitOk(node, env, Visit(model, replies))
    ensures events == VisitEvents(node, env, model.name, replies, ask)
    ensures failure' == LastFailure(replies, failure)
  {
    hide VisitOk, VisitEvents, LastFailure, OutputsIn, Visiting;
    replies, events, failure' := [], [], failure;
    NoReplies(node, env, model, ask, failure);
    while |replies| < node.retry.attempts
      invariant Visiting(node, env, model, replies) && |replies| <= node.retry.attempts
      invariant events == VisitEvents(node, env, model.name, replies, ask)
      invariant failure' == LastFailure(replies, failure)
      decreases node.retry.attempts - |replies|
    {
      var attempt := |replies| + 1;
      var r := env.run(node.id, node.prompt, model.name, attempt);
      ReplyRecorded(node, env, model.name, replies, r, ask, failure);
      VisitingOn(node, env, model, replies, r);
      var recorded := ask + OutputsIn(replies);
      replies := replies + [r];
      match r {
        case Swallowed =>
        case TimedOut =>
          return;
        case Output(text, success, retryable, usage) =>
          var answer := env.budget(recorded, Usage(node.id, usage));
          EventsAssoc(events, BudgetEvents(answer), OutcomeEvents(node, model.name, attempt, r));
          events := events + BudgetEvents(answer);
          if success {
            if node.validate.Some? && !Contains(text, node.validate.value) {
              if attempt < node.retry.attempts {
                events := events + [DispatchEvent.Retry(attempt)];
              }
            } else {
              return;
            }
          } else {
            failure' := Some(text);
            if retryable {
              if attempt < node.retry.attempts && node.retry.backoffMs > 0 {
                events := events + [BackoffRetry(attempt)];
              } else {
                events := events + [RetryExhausted(model.name)];
                return;
              }
            } else if attempt < node.retry.attempts {
              events := events + [DispatchEvent.Retry(attempt)];
            }
          }
      }
    }
    VisitedAll(node, env, model, replies);
  }

  lemma NoReplies(node: Node, env: Env, model: ModelRef, ask: nat, failure: Option<string>)
    ensures Visiting(node, env, model, [])
    ensures VisitEvents(node, env, model.name, [], ask) == [] && LastFailure([], failure) == failure && OutputsIn([]) == 0
  {
  }

  // ----- Model after model

  /** The trace while models are tried: all finished with nothing to show. */
  ghost predicate Trying(node: Node, env: Env, allowPaid: bool, tried: seq<ModelRef>, visits: seq<Visit>) {
    && |visits| == |Eligible(tried, allowPaid)|
    && forall i | 0 <= i < |visits| ::
      visits[i].model == Eligible(tried, allowPaid)[i] && VisitOk(node, env, visits[i]) && !Finished(node, visits[i])
  }

  lemma EligibleSnoc(tried: seq<ModelRef>, m: ModelRef, allowPaid: bool)
    ensures Eligible(tried + [m], allowPaid) == Eligible(tried, allowPaid) + if m.paid && !allowPaid then [] else [m]
  {
    assert (tried + [m])[..|tried|] == tried;
  }

  lemma {:induction false} EligiblePrefix(tried: seq<ModelRef>, models: seq<ModelRef>, allowPaid: bool)
    requires tried <= models
    ensures Eligible(tried, allowPaid) <= Eligible(models, allowPaid)
    decreases |models|
  {
    if |tried| < |models| {
      EligiblePrefix(tried, models[..|models| - 1], allowPaid);
    } else {
      assert tried == models;
    }
  }

  lemma TriedOneMore(node: Node, env: Env, allowPaid: bool, tried: seq<ModelRef>, visits: seq<Visit>, v: Visit)
    requires Trying(node, env, allowPaid, tried, visits) && VisitOk(node, env, v)
    requires !(v.model.paid && !allowPaid)
    ensures !Finished(node, v) ==> Trying(node, env, allowPaid, tried + [v.model], visits + [v])
    ensures Finished(node, v) && tried + [v.model] <= node.models ==> TraceOk(node, env, allowPaid, visits + [v])
  {
    hide VisitOk, Finished, Eligible;
    EligibleSnoc(tried, v.model, allowPaid);
    var all := visits + [v];
    assert forall i | 0 <= i < |visits| :: all[i] == visits[i];
    if tried + [v.model] <= node.models {
      EligiblePrefix(tried + [v.model], node.models, allowPaid);
    }
  }

  lemma TriedAll(node: Node, env: Env, allowPaid: bool, visits: seq<Visit>)
    requires Trying(node, env, allowPaid, node.models, visits)
    ensures TraceOk(node, env, allowPaid, visits)
  {
    hide VisitOk, Finished, Eligible;
  }

  lemma VisitRecorded(node: Node, env: Env, visits: seq<Visit>, v: Visit, ask: nat)
    ensures var all := visits + [v];
      && TotalOutputs(all) == TotalOutputs(visits) + OutputsIn(v.replies)
      && LastFailureOf(all) == LastFailure(v.replies, LastFailureOf(visits))
      && Narrated(node, env, all, ask) == Narrated(node, env, visits, ask)
           + (if visits == [] then [] else [Fallback(visits[|visits| - 1].model.name, v.model.name)])
           + VisitEvents(node, env, v.model.name, v.replies, ask + TotalOutputs(visits))
  {
    hide OutputsIn, LastFailure, VisitEvents;
    assert (visits + [v])[..|visits|] == visits;
  }

  lemma NoVisits(node: Node, env: Env, allowPaid: bool, ask: nat)
    ensures Trying(node, env, allowPaid, [], [])
    ensures Narrated(node, env, [], ask) == [] && TotalOutputs([]) == 0 && LastFailureOf([]) == None
  {
  }

  /** The loop over the models, until one visit finishes. */
  method TryModels(node: Node, env: Env, allowPaid: bool, ask: nat)
    returns (visits: seq<Visit>, events: seq<DispatchEvent>)
    ensures TraceOk(node, env, allowPaid, visits)
    ensures events == Narrated(node, env, visits, ask)
  {
    hide VisitOk, Finished, Eligible, Trying, TraceOk, Narrated, VisitEvents, TotalOutputs, LastFailure, LastFailureOf, OutputsIn;
    visits, events := [], [];
    var prevModel: Option<string> := None;
    var failure: Option<string> := None;
    NoVisits(node, env, allowPaid, ask);
    for i := 0 to |node.models|
      invariant Trying(node, env, allowPaid, node.models[..i], visits)
      invariant events == Narrated(node, env, visits, ask) && failure == LastFailureOf(visits)
      invariant prevModel == if visits == [] then None else Some(visits[|visits| - 1].model.name)
    {
      var model := node.models[i];
      assert node.models[..i + 1] == node.models[..i] + [model];
      if model.paid && !allowPaid {
        SkipModel(node, env, allowPaid, node.models[..i], model, visits);
      } else {
        if prevModel.Some? {
          events := events + [Fallback(prevModel.value, model.name)];
        }
        var replies, visitEvents;
        replies, visitEvents, failure := VisitModel(node, env, model, ask + TotalOutputs(visits), failure);
        var v := Visit(model, replies);
        VisitRecorded(node, env, visits, v, ask);
        TriedOneMore(node, env, allowPaid, node.models[..i], visits, v);
        events := events + visitEvents;
        visits := visits + [v];
        prevModel := Some(model.name);
        if Finished(node, v) {
          return;
        }
      }
    }
    assert node.models[..|node.models|] == node.models;
    TriedAll(node, env, allowPaid, visits);
  }

  lemma SkipModel(node: Node, env: Env, allowPaid: bool, tried: seq<ModelRef>, m: ModelRef, visits: seq<Visit>)
    requires Trying(node, env, allowPaid, tried, visits) && m.paid && !allowPaid
    ensures Trying(node, env, allowPaid, tried + [m], visits)
  {
    EligibleSnoc(tried, m, allowPaid);
  }

  // ----- Commands without a model

  predicate CommandFinishes(r: Reply) {
    r.TimedOut? || (r.Output? && r.success)
  }

  /** Attempts until one succeeds or the deadline passes; neither retryability nor `validate` matters. */
  ghost predicate CommandOk(node: Node, env: Env, replies: seq<Reply>) {
    && |replies| <= node.retry.attempts
    && (forall i | 0 <= i < |replies| :: replies[i] == env.run(node.id, node.prompt, "", i + 1))
    && (forall i | 0 <= i < |replies| - 1 :: !CommandFinishes(replies[i]))
    && (|replies| < node.retry.attempts ==> replies != [] && CommandFinishes(replies[|replies| - 1]))
  }

  function CommandSettled(node: Node, replies: seq<Reply>): NodeState {
    if replies != [] && CommandFinishes(replies[|replies| - 1]) then
      match replies[|replies| - 1]
      case Output(text, _, _, _) => NodeState(Done, None, |replies|, Some(text))
      case _ => NodeState(Failed, None, 0, Some("node " + node.id + " attempt " + Decimal(|replies|) + " timed out"))
    else NodeState(Failed, None, 0, LastFailure(replies, None))
  }

  function CommandEvents(node: Node, replies: seq<Reply>): seq<DispatchEvent> {
    if replies == [] then []
    else
      var r := replies[|replies| - 1];
      CommandEvents(node, replies[..|replies| - 1])
        + if r.Output? && !r.success && |replies| < node.retry.attempts then [DispatchEvent.Retry(|replies|)] else []
  }

  lemma CommandSnoc(node: Node, replies: seq<Reply>, r: Reply)
    ensures CommandEvents(node, replies + [r]) == CommandEvents(node, replies)
      + if r.Output? && !r.success && |replies| + 1 < node.retry.attempts then [DispatchEvent.Retry(|replies| + 1)] else []
    ensures LastFailure(replies + [r], None) == if r.Output? && !r.success then Some(r.text) else LastFailure(replies, None)
  {
    assert (replies + [r])[..|replies|] == replies;
  }

  method RunCommand(node: Node, env: Env) returns (replies: seq<Reply>, events: seq<DispatchEvent>, failure: Option<string>)
    ensures CommandOk(node, env, replies) && events == CommandEvents(node, replies) && failure == LastFailure(replies, None)
  {
    hide CommandEvents, LastFailure;
    replies, events, failure := [], [], None;
    NoCommand(node);
    while |replies| < node.retry.attempts
      invariant |replies| <= node.retry.attempts
      invariant forall i | 0 <= i < |replies| :: replies[i] == env.run(node.id, node.prompt, "", i + 1) && !CommandFinishes(replies[i])
      invariant events == CommandEvents(node, replies) && failure == LastFailure(replies, None)
      decreases node.retry.attempts - |replies|
    {
      var attempt := |replies| + 1;
      var r := env.run(node.id, node.prompt, "", attempt);
      CommandSnoc(node, replies, r);
      replies := replies + [r];
      match r {
        case Swallowed =>
        case TimedOut =>
          return;
        case Output(text, success, _, _) =>
          if success {
            return;
          }
          failure := Some(text);
          if attempt < node.retry.attempts {
            events := events + [DispatchEvent.Retry(attempt)];
          }
      }
    }
  }

  lemma NoCommand(node: Node)
    ensures CommandEvents(node, []) == [] && LastFailure([], None) == None
  {
  }
}
