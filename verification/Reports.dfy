/**
 What a dispatch reports, told from the replies and the budget's answers: every answer once and in order, every
 attempt that is followed by another, and every change of model.
 */
module Reports {
  import opened Wrappers
  import opened Dag
  import opened Events
  import opened RetryLattice
  import opened Dispatch
  import opened Verification
  import opened Spending

  datatype Kind = Updates | Repeats | Changes | Critics

  predicate Is(e: DispatchEvent, k: Kind) {
    match k
    case Updates => e.CountersUpdated? || e.CeilingTripped?
    case Repeats => e.Retry? || e.BackoffRetry?
    case Changes => e.Fallback?
    case Critics => e.CriticDispatched?
  }

  /** The events of one kind, in order. */
  function Kept(events: seq<DispatchEvent>, k: Kind): seq<DispatchEvent> {
    if events == [] then []
    else Kept(events[..|events| - 1], k) + if Is(events[|events| - 1], k) then [events[|events| - 1]] else []
  }

  lemma {:induction false} KeptJoins(a: seq<DispatchEvent>, b: seq<DispatchEvent>, k: Kind)
    ensures Kept(a + b, k) == Kept(a, k) + Kept(b, k)
  {
    hide Is;
    if b == [] {
      assert a + b == a;
    } else {
      assert (a + b)[..|a + b| - 1] == a + b[..|b| - 1];
      KeptJoins(a, b[..|b| - 1], k);
    }
  }

  lemma KeptOne(e: DispatchEvent, k: Kind)
    ensures Kept([], k) == [] && Kept([e], k) == if Is(e, k) then [e] else []
  {
    assert [e][..0] == [];
  }

  /** At most one event. */
  lemma KeptSome(events: seq<DispatchEvent>, k: Kind)
    requires |events| <= 1
    ensures Kept(events, k) == if events != [] && Is(events[0], k) then events else []
  {
    if events != [] {
      assert events == [events[0]];
      KeptOne(events[0], k);
    }
  }

  // ----- One reply

  /** The budget's answer to a recorded call, and the ceiling it trips. */
  function AnswerNews(a: Answer): seq<DispatchEvent> {
    [CountersUpdated(a.modelCalls, a.totalTokens)] + if a.breach.None? then [] else [CeilingTripped(a.breach.value)]
  }

  /** An attempt that had an output, as it is announced when another follows. */
  function RepeatNews(attempt: nat, r: Reply): seq<DispatchEvent> {
    if !r.Output? then [] else if !r.success && r.retryable then [BackoffRetry(attempt)] else [DispatchEvent.Retry(attempt)]
  }

  lemma OutcomeShape(node: Node, model: string, attempt: nat, r: Reply)
    requires 0 < attempt <= node.retry.attempts
    ensures var outcome := OutcomeEvents(node, model, attempt, r);
      && |outcome| <= 1
      && (Retries(node, attempt, r) ==> outcome == RepeatNews(attempt, r))
      && (!Retries(node, attempt, r) && outcome != [] ==> outcome[0].RetryExhausted?)
  {
    hide Accepted;
    AcceptedNeeds(node, r);
  }

  lemma AcceptedNeeds(node: Node, r: Reply)
    ensures Accepted(node, r) ==> r.Output? && r.success
  {
  }

  lemma OutcomeKept(node: Node, model: string, attempt: nat, r: Reply, k: Kind)
    requires 0 < attempt <= node.retry.attempts
    ensures Kept(OutcomeEvents(node, model, attempt, r), k) == if k.Repeats? && Retries(node, attempt, r) then RepeatNews(attempt, r) else []
  {
    hide OutcomeEvents, Retries, Kept;
    OutcomeShape(node, model, attempt, r);
    KeptSome(OutcomeEvents(node, model, attempt, r), k);
  }

  lemma AnswerKept(a: Answer, k: Kind)
    ensures Kept(BudgetEvents(a), k) == if k.Updates? then AnswerNews(a) else []
  {
    hide Kept;
    var first, trip := [CountersUpdated(a.modelCalls, a.totalTokens)], if a.breach.None? then [] else [CeilingTripped(a.breach.value)];
    assert BudgetEvents(a) == first + trip;
    KeptJoins(first, trip, k);
    KeptSome(first, k);
    KeptSome(trip, k);
  }

  lemma ReplyKept(node: Node, env: Env, model: string, attempt: nat, r: Reply, ask: nat, k: Kind)
    requires 0 < attempt <= node.retry.attempts
    ensures Kept(ReplyEvents(node, env, model, attempt, r, ask), k) ==
      match k
      case Updates => if r.Output? then AnswerNews(env.budget(ask, Usage(node.id, r.usage))) else []
      case Repeats => if Retries(node, attempt, r) then RepeatNews(attempt, r) else []
      case _ => []
  {
    hide Kept, OutcomeEvents, BudgetEvents, Retries, AnswerNews, RepeatNews;
    var budget := if r.Output? then BudgetEvents(env.budget(ask, Usage(node.id, r.usage))) else [];
    KeptJoins(budget, OutcomeEvents(node, model, attempt, r), k);
    OutcomeKept(node, model, attempt, r, k);
    KeptSome([], k);
    if r.Output? {
      AnswerKept(env.budget(ask, Usage(node.id, r.usage)), k);
    }
  }

  // ----- The calls of one node

  /** The answers to the calls recorded from request `from` on. */
  function AnswersTo(env: Env, id: Id, from: nat, usages: seq<Option<nat>>): seq<DispatchEvent> {
    if usages == [] then []
    else
      var last: nat := |usages| - 1;
      AnswersTo(env, id, from, usages[..last]) + AnswerNews(env.budget(from + last, Usage(id, usages[last])))
  }

  /** Each of the first `n` attempts. */
  function RepeatsOf(replies: seq<Reply>, n: nat): seq<DispatchEvent>
    requires n <= |replies|
  {
    if n == 0 then [] else RepeatsOf(replies, n - 1) + RepeatNews(n, replies[n - 1])
  }

  function AllButLast<T>(s: seq<T>): nat {
    if s == [] then 0 else |s| - 1
  }

  /** On each model, every attempt but the last. */
  function VisitRepeats(visits: seq<Visit>): seq<DispatchEvent> {
    if visits == [] then []
    else VisitRepeats(visits[..|visits| - 1]) + RepeatsOf(visits[|visits| - 1].replies, AllButLast(visits[|visits| - 1].replies))
  }

  /** From each model tried to the next. */
  function ModelChanges(visits: seq<Visit>): seq<DispatchEvent> {
    seq(AllButLast(visits), i requires 0 <= i < AllButLast(visits) => Fallback(visits[i].model.name, visits[i + 1].model.name))
  }

  lemma {:induction false} AnswersJoin(env: Env, id: Id, from: nat, a: seq<Option<nat>>, b: seq<Option<nat>>)
    ensures AnswersTo(env, id, from, a + b) == AnswersTo(env, id, from, a) + AnswersTo(env, id, from + |a|, b)
  {
    hide AnswerNews;
    if b == [] {
      assert a + b == a;
    } else {
      assert (a + b)[..|a + b| - 1] == a + b[..|b| - 1];
      AnswersJoin(env, id, from, a, b[..|b| - 1]);
    }
  }

  lemma NextAnswer(env: Env, id: Id, from: nat, a: seq<Option<nat>>, usage: Option<nat>)
    ensures AnswersTo(env, id, from, a + [usage]) == AnswersTo(env, id, from, a) + AnswerNews(env.budget(from + |a|, Usage(id, usage)))
  {
    hide AnswerNews;
    assert (a + [usage])[..|a|] == a;
  }

  /** The first `n` replies of a visit. */
  function VisitNews(node: Node, env: Env, replies: seq<Reply>, n: nat, ask: nat, k: Kind): seq<DispatchEvent>
    requires n <= |replies|
  {
    match k
    case Updates => AnswersTo(env, node.id, ask, UsagesIn(replies[..n]))
    case Repeats => RepeatsOf(replies, if n < |replies| then n else AllButLast(replies))
    case _ => []
  }

  lemma NewsStep(node: Node, env: Env, v: Visit, n: nat, ask: nat, k: Kind)
    requires VisitOk(node, env, v) && 0 < n <= |v.replies|
    ensures VisitNews(node, env, v.replies, n, ask, k) == VisitNews(node, env, v.replies, n - 1, ask, k) + (
      match k
      case Updates => if v.replies[n - 1].Output? then AnswerNews(env.budget(ask + OutputsIn(v.replies[..n - 1]), Usage(node.id, v.replies[n - 1].usage))) else []
      case Repeats => if Retries(node, n, v.replies[n - 1]) then RepeatNews(n, v.replies[n - 1]) else []
      case _ => [])
  {
    hide Retries, AnswerNews, RepeatNews, AnswersTo;
    var front, r := v.replies[..n - 1], v.replies[n - 1];
    assert v.replies[..n][..n - 1] == front;
    UsageCount(front);
    assert UsagesIn(v.replies[..n]) == UsagesIn(front) + if r.Output? then [r.usage] else [];
    if r.Output? {
      NextAnswer(env, node.id, ask, UsagesIn(front), r.usage);
    } else {
      assert UsagesIn(front) + [] == UsagesIn(front);
    }
    assert n < |v.replies| ==> Retries(node, n - 1 + 1, v.replies[n - 1]);
  }

  lemma {:induction false} VisitKept(node: Node, env: Env, v: Visit, n: nat, ask: nat, k: Kind)
    requires VisitOk(node, env, v) && n <= |v.replies|
    ensures Kept(VisitEvents(node, env, v.model.name, v.replies[..n], ask), k) == VisitNews(node, env, v.replies, n, ask, k)
  {
    hide VisitOk, ReplyEvents, Retries, AnswerNews, RepeatNews, Kept, VisitNews;
    if n == 0 {
      KeptSome([], k);
      NoNews(node, env, v.replies, ask, k);
    } else {
      var front := v.replies[..n - 1];
      assert v.replies[..n][..n - 1] == front;
      WithinAttempts(node, env, v);
      VisitKept(node, env, v, n - 1, ask, k);
      NewsStep(node, env, v, n, ask, k);
      ReplyKept(node, env, v.model.name, n, v.replies[n - 1], ask + OutputsIn(front), k);
      KeptJoins(VisitEvents(node, env, v.model.name, front, ask), ReplyEvents(node, env, v.model.name, n, v.replies[n - 1], ask + OutputsIn(front)), k);
    }
  }

  lemma NoNews(node: Node, env: Env, replies: seq<Reply>, ask: nat, k: Kind)
    ensures VisitNews(node, env, replies, 0, ask, k) == []
  {
  }

  lemma WithinAttempts(node: Node, env: Env, v: Visit)
    requires VisitOk(node, env, v)
    ensures |v.replies| <= node.retry.attempts
  {
  }

  function NewsOf(node: Node, env: Env, visits: seq<Visit>, ask: nat, k: Kind): seq<DispatchEvent> {
    match k
    case Updates => AnswersTo(env, node.id, ask, UsagesOf(visits))
    case Repeats => VisitRepeats(visits)
    case Changes => ModelChanges(visits)
    case Critics => []
  }

  lemma OneMoreVisit(node: Node, env: Env, visits: seq<Visit>, ask: nat, k: Kind)
    requires visits != []
    ensures var front, last := visits[..|visits| - 1], visits[|visits| - 1];
      NewsOf(node, env, visits, ask, k) == NewsOf(node, env, front, ask, k)
        + (if k.Changes? && front != [] then [Fallback(front[|front| - 1].model.name, last.model.name)] else [])
        + VisitNews(node, env, last.replies, |last.replies|, ask + TotalOutputs(front), k)
  {
    hide AnswersTo, RepeatsOf, UsagesIn, OutputsIn;
    var front, last := visits[..|visits| - 1], visits[|visits| - 1];
    UsagesCount(front);
    assert last.replies[..|last.replies|] == last.replies;
    AnswersJoin(env, node.id, ask, UsagesOf(front), UsagesIn(last.replies));
    if k.Changes? {
      assert ModelChanges(visits) == ModelChanges(front) + if front == [] then [] else [Fallback(front[|front| - 1].model.name, last.model.name)];
    }
  }

  /**
   What a node's calls report: each answer of the budget to a recorded call, in order; on each model, every
   attempt with an output that is followed by another; and each change from one model tried to the next.
   */
  lemma {:induction false} CallsAreReported(node: Node, env: Env, visits: seq<Visit>, ask: nat, k: Kind)
    requires forall i | 0 <= i < |visits| :: VisitOk(node, env, visits[i])
    ensures Kept(Narrated(node, env, visits, ask), k) == NewsOf(node, env, visits, ask, k)
  {
    hide VisitEvents, VisitOk, VisitNews, NewsOf, Kept;
    if visits == [] {
      KeptSome([], k);
      NothingNew(node, env, ask, k);
    } else {
      var front, last := visits[..|visits| - 1], visits[|visits| - 1];
      CallsAreReported(node, env, front, ask, k);
      OneMoreVisit(node, env, visits, ask, k);
      var before := Narrated(node, env, front, ask);
      var change := if front == [] then [] else [Fallback(front[|front| - 1].model.name, last.model.name)];
      var more := VisitEvents(node, env, last.model.name, last.replies, ask + TotalOutputs(front));
      assert last.replies[..|last.replies|] == last.replies;
      VisitKept(node, env, last, |last.replies|, ask + TotalOutputs(front), k);
      KeptJoins(before + change, more, k);
      KeptJoins(before, change, k);
      KeptSome(change, k);
    }
  }

  lemma NothingNew(node: Node, env: Env, ask: nat, k: Kind)
    ensures NewsOf(node, env, [], ask, k) == []
  {
  }

  // ----- A command, and any course

  /** Each of the first `n` attempts of a command; none waits. */
  function CommandRepeats(replies: seq<Reply>, n: nat): seq<DispatchEvent>
    requires n <= |replies|
  {
    if n == 0 then [] else CommandRepeats(replies, n - 1) + if replies[n - 1].Output? then [DispatchEvent.Retry(n)] else []
  }

  lemma {:induction false} CommandKept(node: Node, env: Env, replies: seq<Reply>, n: nat, k: Kind)
    requires CommandOk(node, env, replies) && n <= |replies|
    ensures Kept(CommandEvents(node, replies[..n]), k) ==
      if k.Repeats? then CommandRepeats(replies, if n < |replies| then n else AllButLast(replies)) else []
  {
    hide Kept;
    if n == 0 {
      KeptSome([], k);
    } else {
      var front, r := replies[..n - 1], replies[n - 1];
      assert replies[..n][..n - 1] == front;
      CommandKept(node, env, replies, n - 1, k);
      var more := if r.Output? && !r.success && n < node.retry.attempts then [DispatchEvent.Retry(n)] else [];
      KeptJoins(CommandEvents(node, front), more, k);
      KeptSome(more, k);
      assert n < |replies| ==> !CommandFinishes(replies[n - 1]);
    }
  }

  /** The news of a course, whatever its kind. */
  function CourseNews(node: Node, env: Env, course: Course, ask: nat, k: Kind): seq<DispatchEvent> {
    match course
    case Models(visits) => NewsOf(node, env, visits, ask, k)
    case Command(replies) => if k.Repeats? then CommandRepeats(replies, AllButLast(replies)) else []
    case _ => []
  }

  /** What a course reports, commands included. */
  lemma CourseIsReported(node: Node, env: Env, allowPaid: bool, course: Course, ask: nat, k: Kind)
    requires CourseOk(node, env, allowPaid, course)
    ensures Kept(CourseEvents(node, env, course, ask), k) == CourseNews(node, env, course, ask, k)
  {
    hide Narrated, CommandEvents, Kept, NewsOf, VisitOk, CommandRepeats, Eligible, Finished;
    KeptSome([], k);
    match course
    case Models(visits) => CallsAreReported(node, env, visits, ask, k);
    case Command(replies) =>
      assert replies[..|replies|] == replies;
      CommandKept(node, env, replies, |replies|, k);
    case _ =>
  }

  // ----- The whole dispatch

  /** The budget's answers to one stretch: a refusal of its slot, or its recorded calls. */
  function StretchNews(env: Env, b: Stretch): seq<DispatchEvent> {
    (if b.slot.Some? && !b.granted then [CeilingTripped(OrEmpty(env.budget(b.slot.value, Slot(b.node.id)).breach))] else [])
      + AnswersTo(env, b.node.id, b.from, Usages(b.course))
  }

  function StretchesNews(env: Env, stretches: seq<Stretch>): seq<DispatchEvent> {
    if stretches == [] then []
    else StretchesNews(env, stretches[..|stretches| - 1]) + StretchNews(env, stretches[|stretches| - 1])
  }

  lemma {:induction false} StretchesJoin(env: Env, a: seq<Stretch>, b: seq<Stretch>)
    ensures StretchesNews(env, a + b) == StretchesNews(env, a) + StretchesNews(env, b)
  {
    hide StretchNews;
    if b == [] {
      assert a + b == a;
    } else {
      assert (a + b)[..|a + b| - 1] == a + b[..|b| - 1];
      StretchesJoin(env, a, b[..|b| - 1]);
    }
  }

  lemma OneStretchNews(env: Env, b: Stretch)
    ensures StretchesNews(env, []) == [] && StretchesNews(env, [b]) == StretchNews(env, b)
  {
    hide StretchNews;
    assert [b][..0] == [];
  }

  lemma CourseUpdates(node: Node, env: Env, allowPaid: bool, course: Course, ask: nat)
    requires CourseOk(node, env, allowPaid, course)
    ensures Kept(CourseEvents(node, env, course, ask), Updates) == AnswersTo(env, node.id, ask, Usages(course))
  {
    hide CourseEvents, Kept;
    CourseIsReported(node, env, allowPaid, course, ask, Updates);
  }

  lemma LeafUpdates(c: Check, v: Verify, leaf: Leaf, ask: nat)
    requires LeafOk(c, v, leaf, ask)
    ensures Kept(LeafEvents(c, v, leaf, ask), Updates) == StretchesNews(c.env, LeafStretches(c, v, leaf, ask))
  {
    hide CourseOk, CourseEvents, Kept, StretchesNews, AnswersTo, Eligible;
    KeptSome([], Updates);
    OneStretchNews(c.env, Stretch(c.node, None, 0, true, NoModels));
    if v.Critic? && leaf.CriticRan? {
      var eligible := Eligible(v.models, c.allowPaid);
      var start := if eligible == [] then [] else [CriticDispatched(eligible[0].name)];
      KeptJoins(start, CourseEvents(CriticOf(c, v), c.env, leaf.course, ask + 1), Updates);
      KeptSome(start, Updates);
      CourseUpdates(CriticOf(c, v), c.env, c.allowPaid, leaf.course, ask + 1);
      OneStretchNews(c.env, Stretch(CriticOf(c, v), Some(ask), ask + 1, true, leaf.course));
    } else if v.Critic? && leaf.CriticBlocked? && !NobodyEligible(v.models, c.allowPaid) {
      var b := Stretch(CriticOf(c, v), Some(ask), ask + 1, false, NoModels);
      OneStretchNews(c.env, b);
      NoAnswers(c.env, b);
      KeptSome([CeilingTripped(OrEmpty(SlotAnswer(c, ask).breach))], Updates);
    }
  }

  lemma NoAnswers(env: Env, b: Stretch)
    requires b.slot.Some? && !b.granted && b.course.NoModels?
    ensures StretchNews(env, b) == [CeilingTripped(OrEmpty(env.budget(b.slot.value, Slot(b.node.id)).breach))]
  {
  }

  lemma {:induction false} TreeUpdates(c: Check, tree: seq<Verify>, leaves: seq<Leaf>, ask: nat)
    requires |leaves| <= |tree| && forall i | 0 <= i < |leaves| :: LeafAt(c, tree, leaves, ask, i)
    ensures Kept(TreeEvents(c, tree, leaves, ask), Updates) == StretchesNews(c.env, TreeStretches(c, tree, leaves, ask))
  {
    hide LeafOk, LeafStretches, LeafEvents, Asks, Kept, StretchesNews;
    if leaves == [] {
      KeptSome([], Updates);
      OneStretchNews(c.env, Stretch(c.node, None, 0, true, NoModels));
    } else {
      var n := |leaves| - 1;
      var front := leaves[..n];
      forall i | 0 <= i < n
        ensures LeafAt(c, tree, front, ask, i)
      {
        assert LeafAt(c, tree, leaves, ask, i) && front[..i] == leaves[..i];
      }
      TreeUpdates(c, tree, front, ask);
      assert LeafAt(c, tree, leaves, ask, n);
      var from := ask + Asks(c, tree, front);
      LeafUpdates(c, tree[n], leaves[n], from);
      KeptJoins(TreeEvents(c, tree, front, ask), LeafEvents(c, tree[n], leaves[n], from), Updates);
      StretchesJoin(c.env, TreeStretches(c, tree, front, ask), LeafStretches(c, tree[n], leaves[n], from));
    }
  }

  /**
   The counters a dispatch reports, its critics' included, and the ceilings it announces, are the budget's answers
   to its stretches, stretch after stretch and call after call; nothing is left out or told twice.
   */
  lemma AnswersAreReported(node: Node, env: Env, allowPaid: bool, course: Course, leaves: seq<Leaf>, ask: nat, r: TaskResult, ask': nat)
    requires CourseOk(node, env, allowPaid, course) && Handed(node, env, allowPaid, course, leaves, ask, r, ask')
    ensures Kept(r.events, Updates) == StretchesNews(env, Stretches(Job(env, node, ask, course, leaves), allowPaid))
  {
    hide Worked, CourseEvents, TreeEvents, Reason, Truncated, Tree, TreeStretches, Asks, LeafAt, FailureAt, TraceOk, CommandOk, Kept, StretchesNews, AnswersTo;
    var c, from := CheckOf(node, env, allowPaid, course), ask + CourseOutputs(course);
    var own: seq<Stretch> := if node.models == [] then [] else [Stretch(node, None, ask, true, course)];
    OwnUpdates(node, env, allowPaid, course, ask);
    if Worked(node, course).status == Done {
      TreeUpdates(c, Tree(node), leaves, from);
      KeptJoins(CourseEvents(node, env, course, ask), TreeEvents(c, Tree(node), leaves, from), Updates);
      StretchesJoin(env, own, TreeStretches(c, Tree(node), leaves, from));
    } else {
      NoTree(c, Tree(node), from);
      assert own + [] == own;
    }
  }

  lemma OwnUpdates(node: Node, env: Env, allowPaid: bool, course: Course, ask: nat)
    requires CourseOk(node, env, allowPaid, course)
    ensures Kept(CourseEvents(node, env, course, ask), Updates)
         == StretchesNews(env, if node.models == [] then [] else [Stretch(node, None, ask, true, course)])
  {
    hide CourseEvents, TraceOk, CommandOk, Kept, StretchesNews, UsagesOf;
    CourseUpdates(node, env, allowPaid, course, ask);
    OneStretchNews(env, Stretch(node, None, ask, true, course));
    OneAnswer(env, node.id, ask);
  }

  lemma OneAnswer(env: Env, id: Id, from: nat)
    ensures AnswersTo(env, id, from, []) == []
  {
  }

  /** The critics dispatched, by the first model each may use. */
  function CriticsNews(tree: seq<Verify>, leaves: seq<Leaf>, allowPaid: bool): seq<DispatchEvent>
    requires |leaves| <= |tree|
  {
    if leaves == [] then []
    else
      var n := |leaves| - 1;
      CriticsNews(tree, leaves[..n], allowPaid)
        + if leaves[n].CriticRan? && tree[n].Critic? && Eligible(tree[n].models, allowPaid) != []
          then [CriticDispatched(Eligible(tree[n].models, allowPaid)[0].name)] else []
  }

  lemma LeafCritics(c: Check, v: Verify, leaf: Leaf, ask: nat)
    requires LeafOk(c, v, leaf, ask)
    ensures Kept(LeafEvents(c, v, leaf, ask), Critics) ==
      if leaf.CriticRan? && v.Critic? && Eligible(v.models, c.allowPaid) != [] then [CriticDispatched(Eligible(v.models, c.allowPaid)[0].name)] else []
  {
    hide CourseOk, CourseEvents, Kept, Eligible;
    KeptSome([], Critics);
    if v.Critic? && leaf.CriticRan? {
      var eligible := Eligible(v.models, c.allowPaid);
      var start := if eligible == [] then [] else [CriticDispatched(eligible[0].name)];
      KeptJoins(start, CourseEvents(CriticOf(c, v), c.env, leaf.course, ask + 1), Critics);
      KeptSome(start, Critics);
      CourseIsReported(CriticOf(c, v), c.env, c.allowPaid, leaf.course, ask + 1, Critics);
    } else if v.Critic? && leaf.CriticBlocked? {
      KeptSome([CeilingTripped(OrEmpty(SlotAnswer(c, ask).breach))], Critics);
    }
  }

  /** Every critic that is run is announced, and nothing else is. */
  lemma {:induction false} CriticsAreReported(c: Check, tree: seq<Verify>, leaves: seq<Leaf>, ask: nat)
    requires |leaves| <= |tree| && forall i | 0 <= i < |leaves| :: LeafAt(c, tree, leaves, ask, i)
    ensures Kept(TreeEvents(c, tree, leaves, ask), Critics) == CriticsNews(tree, leaves, c.allowPaid)
  {
    hide LeafOk, LeafEvents, Asks, Kept, Eligible;
    if leaves == [] {
      KeptSome([], Critics);
    } else {
      var n := |leaves| - 1;
      var front := leaves[..n];
      forall i | 0 <= i < n
        ensures LeafAt(c, tree, front, ask, i)
      {
        assert LeafAt(c, tree, leaves, ask, i) && front[..i] == leaves[..i];
      }
      CriticsAreReported(c, tree, front, ask);
      assert LeafAt(c, tree, leaves, ask, n);
      LeafCritics(c, tree[n], leaves[n], ask + Asks(c, tree, front));
      KeptJoins(TreeEvents(c, tree, front, ask), LeafEvents(c, tree[n], leaves[n], ask + Asks(c, tree, front)), Critics);
    }
  }
}
