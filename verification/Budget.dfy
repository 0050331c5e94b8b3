/** Budget ceilings: the shared counters, and what they say after any interleaving of dispatches. */
module Budget {
  import opened Wrappers
  import opened Text
  import opened Dag
  import opened Vault

  datatype Limits = Limits(maxCalls: Option<nat>, maxTokens: Option<nat>)

  datatype Budget = Budget(counters: Counters, limits: Limits, breach: Option<string>)

  function Reached(what: string, count: nat, limit: nat): string {
    "budget ceiling breached: " + what + " reached " + Decimal(count) + " (limit " + Decimal(limit) + ")"
  }

  function OnResume(what: string, count: nat, limit: nat): string {
    "budget ceiling already breached on resume: " + what + " at " + Decimal(count) + " (limit " + Decimal(limit) + ") -- raise --" + what + " to continue"
  }

  function MissingUsage(node: Id): string {
    "budget error: node '" + node + "' reported no token usage, but --max-tokens requires it; the configured backend was "
      + "verified at startup to support token_usage, so a missing usage is a hard error, not zero spend (spec-39 B4b)"
  }

  predicate Exceeded(limit: Option<nat>, count: nat) {
    limit.Some? && count > limit.value
  }

  /** With no breach recorded, both counters are within their ceilings. */
  predicate WithinCeilings(b: Budget) {
    b.breach == None ==> !Exceeded(b.limits.maxCalls, b.counters.modelCalls) && !Exceeded(b.limits.maxTokens, b.counters.totalTokens)
  }

  // ----- The operations on values

  function Fresh(counters: Counters, limits: Limits): Budget {
    Budget(counters, limits,
           if Exceeded(limits.maxCalls, counters.modelCalls) then Some(OnResume("max-model-calls", counters.modelCalls, limits.maxCalls.value))
           else if Exceeded(limits.maxTokens, counters.totalTokens) then Some(OnResume("max-tokens", counters.totalTokens, limits.maxTokens.value))
           else None)
  }

  function Refusal(b: Budget, node: Id): Option<string> {
    if b.breach.Some? then b.breach
    else if b.limits.maxCalls.Some? && b.counters.modelCalls >= b.limits.maxCalls.value then
      Some(Reached("max-model-calls", b.counters.modelCalls, b.limits.maxCalls.value) + "; refusing to dispatch '" + node + "'")
    else None
  }

  function Reserved(b: Budget, node: Id): Budget {
    if Refusal(b, node).Some? then b.(breach := Refusal(b, node))
    else b.(counters := b.counters.(modelCalls := b.counters.modelCalls + 1))
  }

  /** What a recorded call trips, if nothing is tripped yet; `c` are the counters with the call. */
  function Tripped(b: Budget, c: Counters, node: Id, usage: Option<nat>, recheckCalls: bool): Option<string> {
    if b.breach.Some? then None
    else if usage.Some? && Exceeded(b.limits.maxTokens, c.totalTokens) then
      Some(Reached("max-tokens", c.totalTokens, b.limits.maxTokens.value) + " after node '" + node + "'")
    else if usage.None? && b.limits.maxTokens.Some? then Some(MissingUsage(node))
    else if recheckCalls && Exceeded(b.limits.maxCalls, c.modelCalls) then
      Some(Reached("max-model-calls", c.modelCalls, b.limits.maxCalls.value) + " after node '" + node + "'")
    else None
  }

  function Counted(c: Counters, usage: Option<nat>, extra: bool): Counters {
    Counters(
      c.modelCalls + if extra then 1 else 0,
      c.totalTokens + match usage case None => 0 case Some(t) => t)
  }

  function Recorded(b: Budget, node: Id, usage: Option<nat>, extra: bool): Budget {
    var c := Counted(b.counters, usage, extra);
    var tripped := Tripped(b, c, node, usage, extra);
    b.(counters := c, breach := if tripped.Some? then tripped else b.breach)
  }

  // ----- The shared object

  class BudgetInner {
    var modelCalls: nat
    var totalTokens: nat
    const limits: Limits
    var breach: Option<string>

    function Value(): Budget
      reads this
    {
      Budget(Counters(modelCalls, totalTokens), limits, breach)
    }

    constructor (counters: Counters, limits: Limits)
      ensures this.limits == limits && Value() == Fresh(counters, limits)
    {
      this.limits := limits;
      modelCalls, totalTokens := counters.modelCalls, counters.totalTokens;
      breach := None;
      new;
      RecheckOnInit();
    }

    /** A resumed run that is over a ceiling is stopped before anything is dispatched. */
    method RecheckOnInit()
      modifies this`breach
      requires breach == None
      ensures Value() == Fresh(old(Value()).counters, limits)
    {
      if Exceeded(limits.maxCalls, modelCalls) {
        breach := Some(OnResume("max-model-calls", modelCalls, limits.maxCalls.value));
        return;
      }
      if Exceeded(limits.maxTokens, totalTokens) {
        breach := Some(OnResume("max-tokens", totalTokens, limits.maxTokens.value));
      }
    }

    method Reserve(node: Id) returns (refusal: Option<string>)
      modifies this
      ensures Value() == Reserved(old(Value()), node) && refusal == Refusal(old(Value()), node)
    {
      if breach.Some? {
        return breach;
      }
      if limits.maxCalls.Some? && modelCalls >= limits.maxCalls.value {
        breach := Some(Reached("max-model-calls", modelCalls, limits.maxCalls.value) + "; refusing to dispatch '" + node + "'");
        return breach;
      }
      modelCalls := modelCalls + 1;
      refusal := None;
    }

    /** A dispatch's first call, whose slot its reservation has paid for. */
    method RecordFirstUsage(node: Id, usage: Option<nat>) returns (tripped: Option<string>)
      modifies this
      ensures Value() == Recorded(old(Value()), node, usage, false)
      ensures tripped == Tripped(old(Value()), Value().counters, node, usage, false)
    {
      tripped := RecordUsage(node, usage, false);
    }

    /** Any later call of the dispatch. */
    method RecordExtraCall(node: Id, usage: Option<nat>) returns (tripped: Option<string>)
      modifies this
      ensures Value() == Recorded(old(Value()), node, usage, true)
      ensures tripped == Tripped(old(Value()), Value().counters, node, usage, true)
    {
      modelCalls := modelCalls + 1;
      tripped := RecordUsage(node, usage, true);
    }

    method RecordUsage(node: Id, usage: Option<nat>, recheckCalls: bool) returns (tripped: Option<string>)
      modifies this`totalTokens, this`breach
      ensures totalTokens == Counted(old(Value()).counters, usage, false).totalTokens
      ensures tripped == Tripped(old(Value()), Value().counters, node, usage, recheckCalls)
      ensures breach == if tripped.Some? then tripped else old(breach)
    {
      hide Reached, MissingUsage;
      var alreadyBreached := breach.Some?;
      match usage {
        case Some(t) =>
          totalTokens := totalTokens + t;
          if !alreadyBreached && Exceeded(limits.maxTokens, totalTokens) {
            breach := Some(Reached("max-tokens", totalTokens, limits.maxTokens.value) + " after node '" + node + "'");
            return breach;
          }
        case None =>
          if !alreadyBreached && limits.maxTokens.Some? {
            breach := Some(MissingUsage(node));
            return breach;
          }
      }
      if !alreadyBreached && recheckCalls && Exceeded(limits.maxCalls, modelCalls) {
        breach := Some(Reached("max-model-calls", modelCalls, limits.maxCalls.value) + " after node '" + node + "'");
        return breach;
      }
      tripped := None;
    }
  }

  // ----- Any interleaving

  /** A dispatch asks for its slot; a granted one, numbered in order of granting, gets an output from its worker. */
  datatype Step = Claim(node: Id) | Output(dispatch: nat, node: Id, usage: Option<nat>)

  /** The counters, and for each granted dispatch how many outputs it has had. */
  datatype Ledger = Ledger(budget: Budget, outputs: seq<nat>)

  function Apply(l: Ledger, step: Step): Ledger {
    match step
    case Claim(node) =>
      Ledger(Reserved(l.budget, node), if Refusal(l.budget, node).None? then l.outputs + [0] else l.outputs)
    case Output(d, node, usage) =>
      if d < |l.outputs| then
        Ledger(Recorded(l.budget, node, usage, l.outputs[d] > 0), l.outputs[d := l.outputs[d] + 1])
      else l
  }

  function Play(l: Ledger, steps: seq<Step>): Ledger {
    if steps == [] then l else Apply(Play(l, steps[..|steps| - 1]), steps[|steps| - 1])
  }

  function Opening(counters: Counters, limits: Limits): Ledger {
    Ledger(Fresh(counters, limits), [])
  }

  function AtLeastOne(n: nat): nat {
    if n == 0 then 1 else n
  }

  /** The calls that a list of dispatches stands for. */
  function Spent(outputs: seq<nat>): nat {
    if outputs == [] then 0 else Spent(outputs[..|outputs| - 1]) + AtLeastOne(outputs[|outputs| - 1])
  }

  lemma {:induction false} SpentUpdate(outputs: seq<nat>, d: nat, n: nat)
    requires d < |outputs|
    ensures Spent(outputs[d := n]) == Spent(outputs) - AtLeastOne(outputs[d]) + AtLeastOne(n)
  {
    var last := |outputs| - 1;
    if d == last {
      assert outputs[d := n][..last] == outputs[..last];
    } else {
      assert outputs[d := n][..last] == outputs[..last][d := n];
      SpentUpdate(outputs[..last], d, n);
    }
  }

  lemma SpentSnoc(outputs: seq<nat>, n: nat)
    ensures Spent(outputs + [n]) == Spent(outputs) + AtLeastOne(n)
  {
    assert (outputs + [n])[..|outputs|] == outputs;
  }

  /** Exact accounting: every granted reservation costs one call, or as many as its worker returned outputs. */
  lemma {:induction false} CallsAreSpent(counters: Counters, limits: Limits, steps: seq<Step>)
    ensures var l := Play(Opening(counters, limits), steps);
      l.budget.counters.modelCalls == counters.modelCalls + Spent(l.outputs)
  {
    hide Fresh, Apply, Spent;
    if steps == [] {
      NothingSpent(counters, limits);
    } else {
      CallsAreSpent(counters, limits, steps[..|steps| - 1]);
      ApplySpends(Play(Opening(counters, limits), steps[..|steps| - 1]), steps[|steps| - 1]);
    }
  }

  lemma NothingSpent(counters: Counters, limits: Limits)
    ensures Fresh(counters, limits).counters == counters && Spent([]) == 0
  {
  }

  lemma ApplySpends(l: Ledger, step: Step)
    ensures var l' := Apply(l, step);
      l'.budget.counters.modelCalls - Spent(l'.outputs) == l.budget.counters.modelCalls - Spent(l.outputs)
  {
    hide Reached, MissingUsage, Exceeded, Spent;
    match step
    case Claim(node) => SpentSnoc(l.outputs, 0);
    case Output(d, node, usage) =>
      if d < |l.outputs| {
        SpentUpdate(l.outputs, d, l.outputs[d] + 1);
      }
  }

  function TokensOf(step: Step, l: Ledger): nat {
    match step
    case Claim(_) => 0
    case Output(d, _, usage) => if d < |l.outputs| then Counted(Counters(0, 0), usage, false).totalTokens else 0
  }

  function Tokens(l: Ledger, steps: seq<Step>): nat {
    if steps == [] then 0
    else
      var front := steps[..|steps| - 1];
      Tokens(l, front) + TokensOf(steps[|steps| - 1], Play(l, front))
  }

  /** Every reported token is counted once. */
  lemma {:induction false} TokensAreCounted(counters: Counters, limits: Limits, steps: seq<Step>)
    ensures Play(Opening(counters, limits), steps).budget.counters.totalTokens == counters.totalTokens + Tokens(Opening(counters, limits), steps)
  {
    if steps != [] {
      TokensAreCounted(counters, limits, steps[..|steps| - 1]);
    }
  }

  lemma ApplyWithin(l: Ledger, step: Step)
    requires WithinCeilings(l.budget)
    ensures WithinCeilings(Apply(l, step).budget) && Apply(l, step).budget.limits == l.budget.limits
  {
    hide Reached, MissingUsage, OnResume;
  }

  /** As long as no breach is recorded, neither ceiling is exceeded. */
  lemma {:induction false} NoBreachNoExcess(counters: Counters, limits: Limits, steps: seq<Step>)
    ensures var l := Play(Opening(counters, limits), steps);
      WithinCeilings(l.budget) && l.budget.limits == limits
  {
    if steps != [] {
      NoBreachNoExcess(counters, limits, steps[..|steps| - 1]);
      ApplyWithin(Play(Opening(counters, limits), steps[..|steps| - 1]), steps[|steps| - 1]);
    }
  }

  /** A recorded breach is final, and grants nothing any more. */
  lemma {:induction false} BreachIsFinal(l: Ledger, steps: seq<Step>)
    requires l.budget.breach.Some?
    ensures Play(l, steps).budget.breach == l.budget.breach
    ensures |Play(l, steps).outputs| == |l.outputs|
  {
    if steps != [] {
      BreachIsFinal(l, steps[..|steps| - 1]);
    }
  }

  // ----- When nothing is refused

  ghost predicate AlwaysGrants(counters: Counters, limits: Limits) {
    forall steps, node :: Refusal(Play(Opening(counters, limits), steps).budget, node).None?
  }

  lemma {:induction false} NoCeilingNoBreach(counters: Counters, limits: Limits, steps: seq<Step>)
    requires limits.maxCalls.None? && limits.maxTokens.None?
    ensures var b := Play(Opening(counters, limits), steps).budget; b.breach.None? && b.limits == limits
  {
    hide Reached, MissingUsage, OnResume;
    if steps != [] {
      NoCeilingNoBreach(counters, limits, steps[..|steps| - 1]);
    }
  }

  /** One reservation after the other reaches a call ceiling. */
  lemma {:induction false} ClaimsAddUp(counters: Counters, limits: Limits, n: nat)
    ensures var b := Play(Opening(counters, limits), seq(n, i => Claim(""))).budget;
      b.limits == limits && (b.breach.None? ==> b.counters.modelCalls == counters.modelCalls + n)
  {
    hide Reached, OnResume;
    var steps := seq(n, i => Claim(""));
    if n > 0 {
      ClaimsAddUp(counters, limits, n - 1);
      assert steps[..n - 1] == seq(n - 1, i => Claim(""));
    }
  }

  /** A call that reports no usage breaches a token ceiling. */
  lemma UsageMissing(counters: Counters, limits: Limits)
    requires limits.maxCalls.None? && limits.maxTokens.Some?
    ensures Play(Opening(counters, limits), [Claim(""), Output(0, "", None)]).budget.breach.Some?
  {
    hide Reached, MissingUsage, OnResume;
    var start, steps := Opening(counters, limits), [Claim(""), Output(0, "", None)];
    assert steps[..1] == [Claim("")] && [Claim("")][..0] == [];
    assert Play(start, []) == start && Play(start, [Claim("")]) == Apply(start, Claim(""));
    assert Play(start, steps) == Apply(Apply(start, Claim("")), Output(0, "", None));
  }

  /** A budget never refuses a reservation, whatever the dispatches do, if and only if it has no ceiling. */
  lemma RefusesNothingIff(counters: Counters, limits: Limits)
    ensures AlwaysGrants(counters, limits) <==> limits.maxCalls.None? && limits.maxTokens.None?
  {
    hide Play, Opening, Reached, OnResume, MissingUsage;
    if limits.maxCalls.Some? {
      var steps := seq(limits.maxCalls.value, i => Claim(""));
      ClaimsAddUp(counters, limits, limits.maxCalls.value);
      assert Refusal(Play(Opening(counters, limits), steps).budget, "").Some?;
    } else if limits.maxTokens.Some? {
      UsageMissing(counters, limits);
      assert Refusal(Play(Opening(counters, limits), [Claim(""), Output(0, "", None)]).budget, "").Some?;
    } else {
      forall steps, node: Id
        ensures Refusal(Play(Opening(counters, limits), steps).budget, node).None?
      {
        NoCeilingNoBreach(counters, limits, steps);
      }
    }
  }

  // ----- How far a ceiling can be overrun

  function Excess(outputs: seq<nat>): nat {
    if outputs == [] then 0 else Excess(outputs[..|outputs| - 1]) + AtLeastOne(outputs[|outputs| - 1]) - 1
  }

  lemma {:induction false} SpentIsExcess(outputs: seq<nat>)
    ensures Spent(outputs) == |outputs| + Excess(outputs)
  {
    if outputs != [] {
      SpentIsExcess(outputs[..|outputs| - 1]);
    }
  }

  lemma {:induction false} ExcessBound(outputs: seq<nat>, caps: seq<nat>)
    requires |outputs| == |caps| && forall i | 0 <= i < |outputs| :: outputs[i] <= caps[i]
    ensures Excess(outputs) <= Excess(caps)
  {
    if outputs != [] {
      ExcessBound(outputs[..|outputs| - 1], caps[..|caps| - 1]);
    }
  }

  /** Reservations stop at the ceiling. */
  lemma {:induction false} GrantsStop(counters: Counters, limits: Limits, steps: seq<Step>)
    requires limits.maxCalls.Some?
    ensures var l := Play(Opening(counters, limits), steps);
      l.outputs != [] ==> counters.modelCalls + |l.outputs| <= limits.maxCalls.value
  {
    if steps != [] {
      var front := steps[..|steps| - 1];
      GrantsStop(counters, limits, front);
      NoBreachNoExcess(counters, limits, front);
      CallsAreSpent(counters, limits, front);
      SpentIsExcess(Play(Opening(counters, limits), front).outputs);
    }
  }

  /**
   The overrun is bounded: if dispatch `i` can have at most `caps[i]` outputs, the calls never exceed the
   ceiling, or what was spent before, by more than the calls each dispatch may make beyond its first.
   */
  lemma OverrunBound(counters: Counters, limits: Limits, steps: seq<Step>, caps: seq<nat>)
    requires limits.maxCalls.Some?
    requires var l := Play(Opening(counters, limits), steps);
      |l.outputs| == |caps| && forall i | 0 <= i < |caps| :: l.outputs[i] <= caps[i]
    ensures var l := Play(Opening(counters, limits), steps);
      var floor := if counters.modelCalls > limits.maxCalls.value then counters.modelCalls else limits.maxCalls.value;
      l.budget.counters.modelCalls <= floor + Excess(caps)
  {
    var l := Play(Opening(counters, limits), steps);
    CallsAreSpent(counters, limits, steps);
    SpentIsExcess(l.outputs);
    ExcessBound(l.outputs, caps);
    GrantsStop(counters, limits, steps);
  }
}
