/** The retry lattice of one dispatch: which models are tried, how often, and what that costs. */
module RetryLattice {
  import opened Wrappers
  import opened Text
  import opened Dag

  /** One call of the worker: an error that is passed over, a deadline, or an output. */
  datatype Reply =
    | Swallowed
    | TimedOut
    | Output(text: string, success: bool, retryable: bool, usage: Option<nat>)

  /** What a dispatch asks of the shared budget: a slot for a node, or that the output of a call be recorded. */
  datatype Request = Slot(node: Id) | Usage(node: Id, tokens: Option<nat>)

  /** The budget's answer to one request: the counters, and the breach it reports, if any. */
  datatype Answer = Answer(modelCalls: nat, totalTokens: nat, breach: Option<string>)

  /** The worker, verification commands, and the shared budget as this dispatch sees it, request by request. */
  datatype Env = Env(
    run: (Id, string, string, nat) -> Reply,
    shell: (string, Option<string>) -> Option<string>,
    pre: string -> Result<string, string>,
    budget: (nat, Request) -> Answer)

  /** The attempts on one model: reply `i` is that of attempt `i + 1`. */
  datatype Visit = Visit(model: ModelRef, replies: seq<Reply>)

  // ----- The rules

  predicate Accepted(node: Node, r: Reply) {
    r.Output? && r.success && (node.validate.Some? ==> Contains(r.text, node.validate.value))
  }

  /** No further call after this reply, on any model. */
  predicate Finishes(node: Node, r: Reply) {
    r.TimedOut? || Accepted(node, r)
  }

  /** The same model is tried again after this reply to this attempt. */
  predicate Retries(node: Node, attempt: nat, r: Reply) {
    && attempt < node.retry.attempts
    && !Finishes(node, r)
    && (r.Output? && !r.success && r.retryable ==> node.retry.backoffMs > 0)
  }

  ghost predicate VisitOk(node: Node, env: Env, v: Visit) {
    && |v.replies| <= node.retry.attempts
    && (forall i | 0 <= i < |v.replies| :: v.replies[i] == env.run(node.id, node.prompt, v.model.name, i + 1))
    && (forall i | 0 <= i < |v.replies| - 1 :: Retries(node, i + 1, v.replies[i]))
    && (v.replies == [] <==> node.retry.attempts == 0)
    && (v.replies != [] ==> !Retries(node, |v.replies|, v.replies[|v.replies| - 1]))
  }

  /** The attempt's reply leaves nothing to be tried again on this model. */
  ghost predicate LastWord(node: Node, attempt: nat, r: Reply) {
    || attempt == node.retry.attempts || r.TimedOut?
    || (r.Output? && r.success && (node.validate.None? || exists j: nat :: OccursAt(r.text, node.validate.value, j)))
    || (r.Output? && !r.success && r.retryable && node.retry.backoffMs == 0)
  }

  /**
   A visit has its first attempt if the policy allows any, and ends with the first reply that is accepted, times
   out, asks to wait where no waiting is configured, or uses up the attempts.
   */
  lemma VisitEnds(node: Node, env: Env, v: Visit)
    requires VisitOk(node, env, v)
    ensures v.replies == [] <==> node.retry.attempts == 0
    ensures forall i | 0 <= i < |v.replies| :: v.replies[i] == env.run(node.id, node.prompt, v.model.name, i + 1)
    ensures forall i | 0 <= i < |v.replies| :: i == |v.replies| - 1 <==> LastWord(node, i + 1, v.replies[i])
  {
    hide Find, OccursAt;
    forall i | 0 <= i < |v.replies|
      ensures i == |v.replies| - 1 <==> LastWord(node, i + 1, v.replies[i])
    {
      RetriesIff(node, i + 1, v.replies[i]);
    }
  }

  lemma RetriesIff(node: Node, attempt: nat, r: Reply)
    requires 0 < attempt <= node.retry.attempts
    ensures Retries(node, attempt, r) <==> !LastWord(node, attempt, r)
  {
    if r.Output? && node.validate.Some? {
      var found := Find(r.text, node.validate.value);
      if j: nat :| OccursAt(r.text, node.validate.value, j) {
        assert found.Some?;
      }
    }
  }

  predicate Finished(node: Node, v: Visit) {
    v.replies != [] && Finishes(node, v.replies[|v.replies| - 1])
  }

  /** The models that may be used, in order. */
  function Eligible(models: seq<ModelRef>, allowPaid: bool): seq<ModelRef> {
    if models == [] then []
    else
      var last := models[|models| - 1];
      Eligible(models[..|models| - 1], allowPaid) + if last.paid && !allowPaid then [] else [last]
  }

  /** The eligible models in order, one after the other, until one visit finishes. */
  ghost predicate TraceOk(node: Node, env: Env, allowPaid: bool, visits: seq<Visit>) {
    var eligible := Eligible(node.models, allowPaid);
    && |visits| <= |eligible|
    && (forall i | 0 <= i < |visits| :: visits[i].model == eligible[i] && VisitOk(node, env, visits[i]))
    && (forall i | 0 <= i < |visits| - 1 :: !Finished(node, visits[i]))
    && (|visits| < |eligible| ==> visits != [] && Finished(node, visits[|visits| - 1]))
  }

  // ----- The trace is determined

  /** A visit does not stop where another goes on. */
  lemma {:induction false} VisitReaches(node: Node, env: Env, v: Visit, w: Visit, n: nat)
    requires VisitOk(node, env, v) && VisitOk(node, env, w) && v.model == w.model
    requires n <= |w.replies|
    ensures n <= |v.replies|
  {
    if n == 1 {
      assert w.replies != [];
    } else if n > 1 {
      VisitReaches(node, env, v, w, n - 1);
      assert v.replies[n - 2] == w.replies[n - 2];
      assert Retries(node, n - 1, w.replies[n - 2]);
    }
  }

  lemma VisitUnique(node: Node, env: Env, v: Visit, w: Visit)
    requires VisitOk(node, env, v) && VisitOk(node, env, w) && v.model == w.model
    ensures v == w
  {
    VisitReaches(node, env, v, w, |w.replies|);
    VisitReaches(node, env, w, v, |v.replies|);
    assert v.replies == w.replies;
  }

  lemma {:induction false} TraceReaches(node: Node, env: Env, allowPaid: bool, a: seq<Visit>, b: seq<Visit>, n: nat)
    requires TraceOk(node, env, allowPaid, a) && TraceOk(node, env, allowPaid, b)
    requires n <= |b|
    ensures n <= |a|
  {
    hide VisitOk, Finished;
    if n == 1 {
      assert Eligible(node.models, allowPaid) != [];
    } else if n > 1 {
      TraceReaches(node, env, allowPaid, a, b, n - 1);
      VisitUnique(node, env, a[n - 2], b[n - 2]);
      assert !Finished(node, b[n - 2]);
    }
  }

  /** Given the worker, exactly one course of calls obeys the rules. */
  lemma TraceUnique(node: Node, env: Env, allowPaid: bool, a: seq<Visit>, b: seq<Visit>)
    requires TraceOk(node, env, allowPaid, a) && TraceOk(node, env, allowPaid, b)
    ensures a == b
  {
    hide VisitOk, Finished;
    TraceReaches(node, env, allowPaid, a, b, |b|);
    TraceReaches(node, env, allowPaid, b, a, |a|);
    forall i | 0 <= i < |a|
      ensures a[i] == b[i]
    {
      VisitUnique(node, env, a[i], b[i]);
    }
  }

  lemma {:induction false} EligibleAre(models: seq<ModelRef>, allowPaid: bool)
    ensures forall m | m in Eligible(models, allowPaid) :: m in models && (m.paid ==> allowPaid)
    ensures forall m | m in models && (m.paid ==> allowPaid) :: m in Eligible(models, allowPaid)
    ensures |Eligible(models, allowPaid)| <= |models|
  {
    if models != [] {
      var front, last := models[..|models| - 1], models[|models| - 1];
      assert models == front + [last];
      EligibleAre(front, allowPaid);
    }
  }

  /** No paid model without permission, and attempts within the policy. */
  lemma OnlyEligibleModels(node: Node, env: Env, allowPaid: bool, visits: seq<Visit>, i: nat)
    requires TraceOk(node, env, allowPaid, visits) && i < |visits|
    ensures visits[i].model in node.models && (visits[i].model.paid ==> allowPaid)
    ensures |visits[i].replies| <= node.retry.attempts
  {
    EligibleAre(node.models, allowPaid);
    assert visits[i].model in Eligible(node.models, allowPaid);
  }

  // ----- What it costs

  function OutputsIn(replies: seq<Reply>): nat {
    if replies == [] then 0
    else OutputsIn(replies[..|replies| - 1]) + if replies[|replies| - 1].Output? then 1 else 0
  }

  /** The outputs a trace has recorded against the budget. */
  function TotalOutputs(visits: seq<Visit>): nat {
    if visits == [] then 0 else TotalOutputs(visits[..|visits| - 1]) + OutputsIn(visits[|visits| - 1].replies)
  }

  lemma {:induction false} OutputsAtMost(replies: seq<Reply>)
    ensures OutputsIn(replies) <= |replies|
  {
    if replies != [] {
      OutputsAtMost(replies[..|replies| - 1]);
    }
  }

  lemma {:induction false} OutputsBounded(visits: seq<Visit>, attempts: nat)
    requires forall i | 0 <= i < |visits| :: |visits[i].replies| <= attempts
    ensures TotalOutputs(visits) <= |visits| * attempts
  {
    if visits != [] {
      var front, last := visits[..|visits| - 1], visits[|visits| - 1];
      OutputsBounded(front, attempts);
      OutputsAtMost(last.replies);
      assert |visits| * attempts == |front| * attempts + attempts;
    }
  }

  /** One dispatch records at most as many outputs as there are eligible models times attempts. */
  lemma DispatchIsBounded(node: Node, env: Env, allowPaid: bool, visits: seq<Visit>)
    requires TraceOk(node, env, allowPaid, visits)
    ensures TotalOutputs(visits) <= |Eligible(node.models, allowPaid)| * node.retry.attempts
  {
    hide Retries, Finished;
    OutputsBounded(visits, node.retry.attempts);
    Multiplied(|visits|, |Eligible(node.models, allowPaid)|, node.retry.attempts);
  }

  lemma Multiplied(a: nat, b: nat, c: nat)
    requires a <= b
    ensures a * c <= b * c && c * a <= c * b
  {
  }

  // ----- Waiting

  function Pow2(n: nat): (r: nat)
    ensures r >= 1
  {
    if n == 0 then 1 else 2 * Pow2(n - 1)
  }

  /** The pause before the attempt that follows this reply. */
  function Delay(node: Node, attempt: nat, r: Reply): nat
    requires attempt > 0
  {
    if r.Output? && !r.success && r.retryable && Retries(node, attempt, r) then node.retry.backoffMs * Pow2(attempt - 1) else 0
  }

  function Slept(node: Node, replies: seq<Reply>): nat {
    if replies == [] then 0 else Slept(node, replies[..|replies| - 1]) + Delay(node, |replies|, replies[|replies| - 1])
  }

  /** Replies that all ask to wait double the pause each time, and there is none behind the last. */
  lemma {:induction false} SleptIs(node: Node, env: Env, v: Visit, n: nat)
    requires VisitOk(node, env, v) && n < |v.replies|
    requires forall r | r in v.replies :: r.Output? && !r.success && r.retryable
    ensures Slept(node, v.replies[..n]) == node.retry.backoffMs * (Pow2(n) - 1)
    ensures n == |v.replies| - 1 ==> Slept(node, v.replies) == Slept(node, v.replies[..n])
  {
    hide Retries;
    if n == |v.replies| - 1 {
      assert v.replies[n] in v.replies && v.replies[|v.replies| - 1] == v.replies[n];
    }
    if n > 0 {
      SleptIs(node, env, v, n - 1);
      assert v.replies[..n][..n - 1] == v.replies[..n - 1];
      assert v.replies[n - 1] in v.replies && Retries(node, n - 1 + 1, v.replies[n - 1]);
      Doubled(node.retry.backoffMs, Pow2(n - 1));
    }
  }

  lemma {:induction false} SleptBelow(node: Node, replies: seq<Reply>)
    ensures Slept(node, replies) <= node.retry.backoffMs * (Pow2(|replies|) - 1)
  {
    if replies != [] {
      var n := |replies|;
      SleptBelow(node, replies[..n - 1]);
      DelayBelow(node, n, replies[n - 1]);
      Doubled(node.retry.backoffMs, Pow2(n - 1));
    }
  }

  lemma DelayBelow(node: Node, attempt: nat, r: Reply)
    requires attempt > 0
    ensures Delay(node, attempt, r) <= node.retry.backoffMs * Pow2(attempt - 1)
  {
    hide Pow2, Retries;
    Multiplied(0, Pow2(attempt - 1), node.retry.backoffMs);
  }

  lemma Doubled(b: nat, p: nat)
    requires p > 0
    ensures b * (2 * p - 1) == b * (p - 1) + b * p
  {
  }

  lemma {:induction false} Pow2Grows(m: nat, n: nat)
    requires m <= n
    ensures Pow2(m) <= Pow2(n)
    decreases n
  {
    if m < n {
      Pow2Grows(m, n - 1);
    }
  }

  /** The pauses on one model add up to at most the base times 2^(attempts - 1) - 1. */
  lemma BackoffBound(node: Node, env: Env, v: Visit)
    requires VisitOk(node, env, v) && v.replies != []
    ensures Slept(node, v.replies) <= node.retry.backoffMs * (Pow2(node.retry.attempts - 1) - 1)
  {
    var n := |v.replies|;
    var last := v.replies[n - 1];
    SleptBelow(node, v.replies[..n - 1]);
    assert Delay(node, n, last) == 0;
    Pow2Grows(n - 1, node.retry.attempts - 1);
    Multiplied(Pow2(n - 1) - 1, Pow2(node.retry.attempts - 1) - 1, node.retry.backoffMs);
  }
}
