/** When a ceiling is breached, told from plain counts of calls and tokens. */
module Ceilings {
  import opened Wrappers
  import opened Vault
  import opened Budget

  predicate Above(limit: Option<nat>, count: nat) {
    limit.Some? && count > limit.value
  }

  /** A slot asked for at the call ceiling, tokens unreported or beyond their ceiling, or a further call beyond the call ceiling. */
  predicate Oversteps(limits: Limits, calls: nat, tokens: nat, outputs: seq<nat>, step: Step) {
    match step
    case Claim(_) => limits.maxCalls.Some? && calls >= limits.maxCalls.value
    case Output(d, _, usage) =>
      && d < |outputs|
      && (|| (limits.maxTokens.Some? && match usage case None => true case Some(t) => Above(limits.maxTokens, tokens + t))
          || (outputs[d] > 0 && Above(limits.maxCalls, calls + 1)))
  }

  /** One step: what it breaches, whom it refuses, and what it reports as tripped. */
  lemma StepBreaches(l: Ledger, step: Step)
    ensures var c := l.budget.counters;
      var over := Oversteps(l.budget.limits, c.modelCalls, c.totalTokens, l.outputs, step);
      && (Apply(l, step).budget.breach.Some? <==> l.budget.breach.Some? || over)
      && (l.budget.breach.Some? ==> Apply(l, step).budget.breach == l.budget.breach)
      && match step
         case Claim(node) =>
           && (Refusal(l.budget, node) == None <==> l.budget.breach.None? && !over)
           && Apply(l, step).outputs == (if l.budget.breach.None? && !over then l.outputs + [0] else l.outputs)
         case Output(d, node, usage) =>
           d < |l.outputs| ==>
             var after := Recorded(l.budget, node, usage, l.outputs[d] > 0);
             (Tripped(l.budget, after.counters, node, usage, l.outputs[d] > 0).Some? <==> l.budget.breach.None? && over)
  {
    hide Reached, MissingUsage, OnResume;
  }

  /** Before step `k`, what has been called and reported is at or beyond a ceiling. */
  ghost predicate OverstepsAt(counters: Counters, limits: Limits, steps: seq<Step>, k: nat) {
    && k < |steps|
    && var start, before := Opening(counters, limits), steps[..k];
      var outputs := Play(start, before).outputs;
      Oversteps(limits, counters.modelCalls + Spent(outputs), counters.totalTokens + Tokens(start, before), outputs, steps[k])
  }

  lemma OpeningIs(counters: Counters, limits: Limits)
    ensures Play(Opening(counters, limits), []).budget.breach.Some? <==>
      Above(limits.maxCalls, counters.modelCalls) || Above(limits.maxTokens, counters.totalTokens)
  {
    hide OnResume;
  }

  /** A budget is breached, over any interleaving, if and only if it was opened above a ceiling or some step so far overstepped. */
  lemma {:induction false} BreachedIff(counters: Counters, limits: Limits, steps: seq<Step>)
    ensures Play(Opening(counters, limits), steps).budget.breach.Some? <==>
      || Above(limits.maxCalls, counters.modelCalls) || Above(limits.maxTokens, counters.totalTokens)
      || exists k: nat :: OverstepsAt(counters, limits, steps, k)
  {
    hide Opening, Apply, Spent, Tokens, Oversteps;
    if steps == [] {
      OpeningIs(counters, limits);
    } else {
      var last: nat := |steps| - 1;
      var front := steps[..last];
      BreachedIff(counters, limits, front);
      CallsAreSpent(counters, limits, front);
      TokensAreCounted(counters, limits, front);
      NoBreachNoExcess(counters, limits, front);
      StepBreaches(Play(Opening(counters, limits), front), steps[last]);
      forall k: nat | k < last
        ensures OverstepsAt(counters, limits, steps, k) <==> OverstepsAt(counters, limits, front, k)
      {
        assert front[..k] == steps[..k];
      }
      if k: nat :| OverstepsAt(counters, limits, front, k) {
        assert OverstepsAt(counters, limits, steps, k);
      }
      assert OverstepsAt(counters, limits, steps, last) ==> exists k: nat :: OverstepsAt(counters, limits, steps, k);
    }
  }
}
