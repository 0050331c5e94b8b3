/**
 The budget and the dispatches together.  Any number of dispatches, critics included, share one ledger;
 each makes the requests its course and its verification lead to, and gets the ledger's answers.
 */
module Spending {
  import opened Wrappers
  import opened Dag
  import opened Events
  import opened Vault
  import opened Budget
  import opened RetryLattice
  import opened Dispatch
  import opened Verification

  // ----- What a dispatch asks of the budget

  /** A dispatch as it happens: its requests are numbered from `ask`. */
  datatype Job = Job(env: Env, node: Node, ask: nat, course: Course, leaves: seq<Leaf>)

  ghost predicate JobOk(t: Job, allowPaid: bool) {
    && CourseOk(t.node, t.env, allowPaid, t.course)
    && if Worked(t.node, t.course).status == Done
       then
         var c, from := CheckOf(t.node, t.env, allowPaid, t.course), t.ask + CourseOutputs(t.course);
         Evaluated(c, Tree(t.node), t.leaves, true, from) || Evaluated(c, Tree(t.node), t.leaves, false, from)
       else t.leaves == []
  }

  /** The calls under one reservation: of the node itself, or of a critic that asked for its slot by request `slot`. */
  datatype Stretch = Stretch(node: Node, slot: Option<nat>, from: nat, granted: bool, course: Course)

  function UsagesIn(replies: seq<Reply>): seq<Option<nat>> {
    if replies == [] then []
    else
      var last := replies[|replies| - 1];
      UsagesIn(replies[..|replies| - 1]) + if last.Output? then [last.usage] else []
  }

  function UsagesOf(visits: seq<Visit>): seq<Option<nat>> {
    if visits == [] then [] else UsagesOf(visits[..|visits| - 1]) + UsagesIn(visits[|visits| - 1].replies)
  }

  /** The usages recorded, in order; commands record none. */
  function Usages(course: Course): seq<Option<nat>> {
    match course
    case Models(visits) => UsagesOf(visits)
    case _ => []
  }

  function LeafStretches(c: Check, v: Verify, leaf: Leaf, ask: nat): seq<Stretch> {
    if !v.Critic? || leaf.ShellRan? then []
    else if leaf.CriticRan? then [Stretch(CriticOf(c, v), Some(ask), ask + 1, true, leaf.course)]
    else if NobodyEligible(v.models, c.allowPaid) then []
    else [Stretch(CriticOf(c, v), Some(ask), ask + 1, false, NoModels)]
  }

  function TreeStretches(c: Check, tree: seq<Verify>, leaves: seq<Leaf>, ask: nat): seq<Stretch>
    requires |leaves| <= |tree|
  {
    if leaves == [] then []
    else
      var n := |leaves| - 1;
      TreeStretches(c, tree, leaves[..n], ask) + LeafStretches(c, tree[n], leaves[n], ask + Asks(c, tree, leaves[..n]))
  }

  /** The loop reserves for a node with models; the critics' slots are asked for on the way. */
  function Stretches(t: Job, allowPaid: bool): seq<Stretch> {
    (if t.node.models == [] then [] else [Stretch(t.node, None, t.ask, true, t.course)]) +
    var c := CheckOf(t.node, t.env, allowPaid, t.course);
    if |t.leaves| <= |Tree(t.node)| then TreeStretches(c, Tree(t.node), t.leaves, t.ask + CourseOutputs(t.course)) else []
  }

  lemma {:induction false} UsageCount(replies: seq<Reply>)
    ensures |UsagesIn(replies)| == OutputsIn(replies)
  {
    if replies != [] {
      UsageCount(replies[..|replies| - 1]);
    }
  }

  lemma {:induction false} UsagesCount(visits: seq<Visit>)
    ensures |UsagesOf(visits)| == TotalOutputs(visits)
  {
    hide UsagesIn, OutputsIn;
    if visits != [] {
      UsagesCount(visits[..|visits| - 1]);
      UsageCount(visits[|visits| - 1].replies);
    }
  }

  lemma CourseUsages(course: Course)
    ensures |Usages(course)| == CourseOutputs(course)
  {
    hide UsagesOf, TotalOutputs;
    if course.Models? {
      UsagesCount(course.visits);
    }
  }

  /** How many requests a stretch makes during the dispatch. */
  function RequestsOf(b: Stretch): nat {
    (if b.slot.Some? then 1 else 0) + |Usages(b.course)|
  }

  function Requests(stretches: seq<Stretch>): nat {
    if stretches == [] then 0 else Requests(stretches[..|stretches| - 1]) + RequestsOf(stretches[|stretches| - 1])
  }

  lemma {:induction false} RequestsJoin(a: seq<Stretch>, b: seq<Stretch>)
    ensures Requests(a + b) == Requests(a) + Requests(b)
  {
    hide RequestsOf;
    if b == [] {
      assert a + b == a;
    } else {
      assert (a + b)[..|a + b| - 1] == a + b[..|b| - 1];
      RequestsJoin(a, b[..|b| - 1]);
    }
  }

  lemma OneStretch(b: Stretch)
    ensures Requests([b]) == RequestsOf(b) && Requests([]) == 0
  {
    assert [b][..0] == [];
  }

  lemma LeafRequests(c: Check, v: Verify, leaf: Leaf, ask: nat)
    requires LeafOk(c, v, leaf, ask)
    ensures Requests(LeafStretches(c, v, leaf, ask)) == LeafAsks(c, v, leaf)
  {
    hide CourseOk, Requests;
    if v.Critic? && !leaf.ShellRan? {
      var stretches := LeafStretches(c, v, leaf, ask);
      if leaf.CriticRan? {
        CourseUsages(leaf.course);
      }
      if |stretches| == 1 {
        assert stretches == [stretches[0]];
        OneStretch(stretches[0]);
      }
    }
    OneStretch(Stretch(c.node, None, 0, true, NoModels));
  }

  lemma {:induction false} TreeRequests(c: Check, tree: seq<Verify>, leaves: seq<Leaf>, ask: nat)
    requires |leaves| <= |tree| && forall i | 0 <= i < |leaves| :: LeafAt(c, tree, leaves, ask, i)
    ensures Requests(TreeStretches(c, tree, leaves, ask)) == Asks(c, tree, leaves)
  {
    hide LeafOk, LeafStretches, LeafAsks, Requests;
    if leaves == [] {
      OneStretch(Stretch(c.node, None, 0, true, NoModels));
    } else {
      var n := |leaves| - 1;
      var front := leaves[..n];
      forall i | 0 <= i < n
        ensures LeafAt(c, tree, front, ask, i)
      {
        assert LeafAt(c, tree, leaves, ask, i) && front[..i] == leaves[..i];
      }
      TreeRequests(c, tree, front, ask);
      assert LeafAt(c, tree, leaves, ask, n);
      LeafRequests(c, tree[n], leaves[n], ask + Asks(c, tree, front));
      RequestsJoin(TreeStretches(c, tree, front, ask), LeafStretches(c, tree[n], leaves[n], ask + Asks(c, tree, front)));
    }
  }

  /** A dispatch is a job, and the requests of its stretches are all it makes. */
  lemma HandedIsJob(env: Env, allowPaid: bool, node: Node, ask: nat, course: Course, leaves: seq<Leaf>, r: TaskResult, ask': nat)
    requires CourseOk(node, env, allowPaid, course) && Handed(node, env, allowPaid, course, leaves, ask, r, ask')
    ensures var t := Job(env, node, ask, course, leaves);
      JobOk(t, allowPaid) && ask' == ask + Requests(Stretches(t, allowPaid))
  {
    hide Worked, CourseEvents, TreeEvents, Reason, Truncated, Tree, Requests, TreeStretches, Asks, LeafAt, FailureAt, TraceOk, CommandOk;
    var t := Job(env, node, ask, course, leaves);
    var c, from := CheckOf(node, env, allowPaid, course), ask + CourseOutputs(course);
    var own: seq<Stretch> := if node.models == [] then [] else [Stretch(node, None, ask, true, course)];
    CourseUsages(course);
    OneStretch(Stretch(node, None, ask, true, course));
    assert node.models == [] ==> CourseOutputs(course) == 0;
    if Worked(node, course).status == Done {
      TreeRequests(c, Tree(node), leaves, from);
      RequestsJoin(own, TreeStretches(c, Tree(node), leaves, from));
    } else {
      NoTree(c, Tree(node), from);
      RequestsJoin(own, []);
    }
  }

  lemma NoTree(c: Check, tree: seq<Verify>, ask: nat)
    ensures TreeStretches(c, tree, [], ask) == [] && Asks(c, tree, []) == 0
  {
  }

  // ----- What a stretch is worth

  /** The most calls a reservation can lead to. */
  function MostCalls(node: Node, allowPaid: bool): nat {
    |Eligible(node.models, allowPaid)| * node.retry.attempts
  }

  /** A stretch that was granted follows a course of its node; a critic's was granted exactly if its request was. */
  ghost predicate StretchOk(b: Stretch, env: Env, allowPaid: bool) {
    && (b.granted ==> CourseOk(b.node, env, allowPaid, b.course))
    && (b.slot.Some? ==> (b.granted <==> env.budget(b.slot.value, Slot(b.node.id)).breach.None?))
    && (b.slot.None? ==> b.granted)
  }

  lemma {:induction false} TreeStretchesOk(c: Check, tree: seq<Verify>, leaves: seq<Leaf>, ask: nat)
    requires |leaves| <= |tree| && forall i | 0 <= i < |leaves| :: LeafAt(c, tree, leaves, ask, i)
    ensures forall i | 0 <= i < |TreeStretches(c, tree, leaves, ask)| :: StretchOk(TreeStretches(c, tree, leaves, ask)[i], c.env, c.allowPaid)
  {
    hide LeafOk, StretchOk, LeafStretches, Asks;
    if leaves != [] {
      var n := |leaves| - 1;
      var front := leaves[..n];
      forall i | 0 <= i < n
        ensures LeafAt(c, tree, front, ask, i)
      {
        assert LeafAt(c, tree, leaves, ask, i) && front[..i] == leaves[..i];
      }
      TreeStretchesOk(c, tree, front, ask);
      assert LeafAt(c, tree, leaves, ask, n);
      LeafStretchesOk(c, tree[n], leaves[n], ask + Asks(c, tree, front));
    }
  }

  lemma LeafStretchesOk(c: Check, v: Verify, leaf: Leaf, ask: nat)
    requires LeafOk(c, v, leaf, ask)
    ensures forall i | 0 <= i < |LeafStretches(c, v, leaf, ask)| :: StretchOk(LeafStretches(c, v, leaf, ask)[i], c.env, c.allowPaid)
  {
    hide CourseOk;
  }

  lemma StretchesOk(t: Job, allowPaid: bool, i: nat)
    requires JobOk(t, allowPaid) && i < |Stretches(t, allowPaid)|
    ensures StretchOk(Stretches(t, allowPaid)[i], t.env, allowPaid)
  {
    hide CourseOk, StretchOk, TreeStretches, LeafAt, FailureAt, Tree, Worked, Asks;
    var c, from := CheckOf(t.node, t.env, allowPaid, t.course), t.ask + CourseOutputs(t.course);
    OwnStretchOk(t, allowPaid);
    if Worked(t.node, t.course).status == Done {
      TreeStretchesOk(c, Tree(t.node), t.leaves, from);
    } else {
      NoTree(c, Tree(t.node), from);
    }
  }

  lemma OwnStretchOk(t: Job, allowPaid: bool)
    requires JobOk(t, allowPaid)
    ensures StretchOk(Stretch(t.node, None, t.ask, true, t.course), t.env, allowPaid)
  {
    hide CourseOk, Evaluated;
  }

  /** A granted stretch records no more calls than its node has eligible models times attempts. */
  lemma StretchIsBounded(b: Stretch, env: Env, allowPaid: bool)
    requires StretchOk(b, env, allowPaid) && b.granted
    ensures |Usages(b.course)| <= MostCalls(b.node, allowPaid)
  {
    hide TraceOk, CommandOk, Eligible, TotalOutputs;
    CourseUsages(b.course);
    if b.course.Models? {
      DispatchIsBounded(b.node, env, allowPaid, b.course.visits);
    }
  }

  // ----- Any interleaving of dispatches

  /** Before its next stretch, or in one, under reservation `dispatch` and with `done` calls recorded. */
  datatype At = Before(stretch: nat) | In(stretch: nat, dispatch: nat, done: nat)

  /** The steps of the ledger so far, the node of each granted reservation, and where each dispatch stands. */
  datatype World = World(steps: seq<Step>, claims: seq<Node>, at: seq<At>)

  datatype Move = Ask(job: nat) | Book(job: nat) | Leave(job: nat)

  function LedgerOf(counters: Counters, limits: Limits, w: World): Ledger {
    Play(Opening(counters, limits), w.steps)
  }

  /**
   A dispatch goes on.  Whether it is refused, or trips a ceiling, is the ledger's answer at that moment; the
   counters it is shown are read later, and may be any.  The loop's own reservation is no request of the
   dispatch, which only begins with it.
   */
  ghost predicate Able(counters: Counters, limits: Limits, allowPaid: bool, jobs: seq<Job>, w: World, m: Move) {
    && m.job < |jobs| == |w.at|
    && var t, budget := jobs[m.job], LedgerOf(counters, limits, w).budget;
      w.at[m.job].stretch < |Stretches(t, allowPaid)| &&
      var b := Stretches(t, allowPaid)[w.at[m.job].stretch];
      match m
      case Ask(_) =>
        && w.at[m.job].Before?
        && (b.slot.Some? ==> t.env.budget(b.slot.value, Slot(b.node.id)).breach == Refusal(budget, b.node.id))
      case Book(_) =>
        && w.at[m.job].In? && w.at[m.job].done < |Usages(b.course)| && w.at[m.job].dispatch < |LedgerOf(counters, limits, w).outputs|
        && var usage, extra := Usages(b.course)[w.at[m.job].done], LedgerOf(counters, limits, w).outputs[w.at[m.job].dispatch] > 0;
          var after := Recorded(budget, b.node.id, usage, extra);
          t.env.budget(b.from + w.at[m.job].done, Usage(b.node.id, usage)).breach
            == Tripped(budget, after.counters, b.node.id, usage, extra)
      case Leave(_) => w.at[m.job].In? && w.at[m.job].done == |Usages(b.course)|
  }

  ghost function Moved(counters: Counters, limits: Limits, allowPaid: bool, jobs: seq<Job>, w: World, m: Move): World
    requires Able(counters, limits, allowPaid, jobs, w, m)
  {
    var i, l := w.at[m.job].stretch, LedgerOf(counters, limits, w);
    var b := Stretches(jobs[m.job], allowPaid)[i];
    match m
    case Ask(t) =>
      if Refusal(l.budget, b.node.id).None?
      then World(w.steps + [Claim(b.node.id)], w.claims + [b.node], w.at[t := In(i, |l.outputs|, 0)])
      else World(w.steps + [Claim(b.node.id)], w.claims, w.at[t := Before(if b.slot.Some? then i + 1 else i)])
    case Book(t) =>
      var In(_, d, j) := w.at[t];
      World(w.steps + [Step.Output(d, b.node.id, Usages(b.course)[j])], w.claims, w.at[t := In(i, d, j + 1)])
    case Leave(t) => w.(at := w.at[t := Before(i + 1)])
  }

  /** The outputs of every reservation are within its node's cap; a dispatch in a stretch is alone with its reservation. */
  ghost predicate WithinCaps(allowPaid: bool, jobs: seq<Job>, outputs: seq<nat>, claims: seq<Node>, at: seq<At>) {
    && |claims| == |outputs| && |at| == |jobs|
    && (forall d | 0 <= d < |outputs| :: outputs[d] <= MostCalls(claims[d], allowPaid))
    && (forall t | 0 <= t < |at| && at[t].In? :: InStretch(allowPaid, jobs[t], outputs, claims, at[t]))
    && (forall t, u | 0 <= t < |at| && 0 <= u < |at| && t != u && at[t].In? && at[u].In? :: at[t].dispatch != at[u].dispatch)
  }

  ghost predicate InStretch(allowPaid: bool, t: Job, outputs: seq<nat>, claims: seq<Node>, at: At)
    requires at.In? && |claims| == |outputs|
  {
    && at.stretch < |Stretches(t, allowPaid)| && at.dispatch < |outputs|
    && var b := Stretches(t, allowPaid)[at.stretch];
      b.granted && claims[at.dispatch] == b.node && outputs[at.dispatch] == at.done <= |Usages(b.course)|
  }

  /** A new reservation. */
  lemma GrantKeeps(allowPaid: bool, jobs: seq<Job>, outputs: seq<nat>, claims: seq<Node>, at: seq<At>, t: nat, i: nat)
    requires WithinCaps(allowPaid, jobs, outputs, claims, at) && t < |jobs|
    requires i < |Stretches(jobs[t], allowPaid)| && Stretches(jobs[t], allowPaid)[i].granted
    ensures WithinCaps(allowPaid, jobs, outputs + [0], claims + [Stretches(jobs[t], allowPaid)[i].node], at[t := In(i, |outputs|, 0)])
  {
    hide Stretches, MostCalls;
  }

  lemma LeaveKeeps(allowPaid: bool, jobs: seq<Job>, outputs: seq<nat>, claims: seq<Node>, at: seq<At>, t: nat, i: nat)
    requires WithinCaps(allowPaid, jobs, outputs, claims, at) && t < |jobs|
    ensures WithinCaps(allowPaid, jobs, outputs, claims, at[t := Before(i)])
  {
    hide InStretch, MostCalls;
  }

  /** One more call under a reservation. */
  lemma CallKeeps(allowPaid: bool, jobs: seq<Job>, outputs: seq<nat>, claims: seq<Node>, at: seq<At>, t: nat)
    requires WithinCaps(allowPaid, jobs, outputs, claims, at) && t < |jobs| && at[t].In?
    requires at[t].done < |Usages(Stretches(jobs[t], allowPaid)[at[t].stretch].course)|
    requires outputs[at[t].dispatch] < MostCalls(claims[at[t].dispatch], allowPaid)
    ensures WithinCaps(allowPaid, jobs, outputs[at[t].dispatch := outputs[at[t].dispatch] + 1], claims, at[t := at[t].(done := at[t].done + 1)])
  {
    hide Stretches, MostCalls;
  }

  lemma AskKeeps(counters: Counters, limits: Limits, allowPaid: bool, jobs: seq<Job>, w: World, t: nat)
    requires forall k | 0 <= k < |jobs| :: JobOk(jobs[k], allowPaid)
    requires Able(counters, limits, allowPaid, jobs, w, Ask(t))
    requires WithinCaps(allowPaid, jobs, LedgerOf(counters, limits, w).outputs, w.claims, w.at)
    ensures var w' := Moved(counters, limits, allowPaid, jobs, w, Ask(t));
      WithinCaps(allowPaid, jobs, LedgerOf(counters, limits, w').outputs, w'.claims, w'.at)
  {
    hide Stretches, StretchOk, Play, JobOk, WithinCaps, Reserved, Refusal;
    var l, i := LedgerOf(counters, limits, w), w.at[t].stretch;
    var b := Stretches(jobs[t], allowPaid)[i];
    PlayOne(Opening(counters, limits), w.steps, Claim(b.node.id));
    assert JobOk(jobs[t], allowPaid);
    StretchesOk(jobs[t], allowPaid, i);
    GrantedStretch(b, jobs[t].env, allowPaid, l.budget);
    if Refusal(l.budget, b.node.id).None? {
      GrantKeeps(allowPaid, jobs, l.outputs, w.claims, w.at, t, i);
    } else {
      LeaveKeeps(allowPaid, jobs, l.outputs, w.claims, w.at, t, if b.slot.Some? then i + 1 else i);
    }
  }

  /** What the ledger grants was granted to the dispatch. */
  lemma GrantedStretch(b: Stretch, env: Env, allowPaid: bool, budget: Budget)
    requires StretchOk(b, env, allowPaid)
    requires b.slot.Some? ==> env.budget(b.slot.value, Slot(b.node.id)).breach == Refusal(budget, b.node.id)
    ensures Refusal(budget, b.node.id).None? ==> b.granted
  {
    hide CourseOk;
  }

  lemma PlayOne(l: Ledger, steps: seq<Step>, step: Step)
    ensures Play(l, steps + [step]) == Apply(Play(l, steps), step)
  {
    assert (steps + [step])[..|steps|] == steps;
  }

  lemma BookKeeps(counters: Counters, limits: Limits, allowPaid: bool, jobs: seq<Job>, w: World, t: nat)
    requires forall k | 0 <= k < |jobs| :: JobOk(jobs[k], allowPaid)
    requires Able(counters, limits, allowPaid, jobs, w, Book(t))
    requires WithinCaps(allowPaid, jobs, LedgerOf(counters, limits, w).outputs, w.claims, w.at)
    ensures var w' := Moved(counters, limits, allowPaid, jobs, w, Book(t));
      WithinCaps(allowPaid, jobs, LedgerOf(counters, limits, w').outputs, w'.claims, w'.at)
  {
    hide Stretches, StretchOk, Play, Apply, JobOk, WithinCaps, MostCalls, Recorded, Tripped, Usages;
    var l, at := LedgerOf(counters, limits, w), w.at[t];
    InStretchOf(allowPaid, jobs, l.outputs, w.claims, w.at, t);
    var b := Stretches(jobs[t], allowPaid)[at.stretch];
    var usage := Usages(b.course)[at.done];
    PlayOne(Opening(counters, limits), w.steps, Step.Output(at.dispatch, b.node.id, usage));
    OneMoreOutput(l, at.dispatch, b.node.id, usage);
    assert JobOk(jobs[t], allowPaid);
    StretchesOk(jobs[t], allowPaid, at.stretch);
    StretchIsBounded(b, jobs[t].env, allowPaid);
    CallKeeps(allowPaid, jobs, l.outputs, w.claims, w.at, t);
  }

  lemma OneMoreOutput(l: Ledger, d: nat, node: Id, usage: Option<nat>)
    requires d < |l.outputs|
    ensures Apply(l, Step.Output(d, node, usage)).outputs == l.outputs[d := l.outputs[d] + 1]
  {
    hide Recorded;
  }

  lemma InStretchOf(allowPaid: bool, jobs: seq<Job>, outputs: seq<nat>, claims: seq<Node>, at: seq<At>, t: nat)
    requires WithinCaps(allowPaid, jobs, outputs, claims, at) && t < |jobs| && at[t].In?
    ensures |claims| == |outputs| && InStretch(allowPaid, jobs[t], outputs, claims, at[t])
  {
    hide InStretch, MostCalls;
  }

  lemma MoveKeeps(counters: Counters, limits: Limits, allowPaid: bool, jobs: seq<Job>, w: World, m: Move)
    requires forall k | 0 <= k < |jobs| :: JobOk(jobs[k], allowPaid)
    requires Able(counters, limits, allowPaid, jobs, w, m)
    requires WithinCaps(allowPaid, jobs, LedgerOf(counters, limits, w).outputs, w.claims, w.at)
    ensures var w' := Moved(counters, limits, allowPaid, jobs, w, m);
      WithinCaps(allowPaid, jobs, LedgerOf(counters, limits, w').outputs, w'.claims, w'.at)
  {
    hide Stretches, Play, JobOk, WithinCaps;
    match m
    case Ask(t) => AskKeeps(counters, limits, allowPaid, jobs, w, t);
    case Book(t) => BookKeeps(counters, limits, allowPaid, jobs, w, t);
    case Leave(t) => LeaveKeeps(allowPaid, jobs, LedgerOf(counters, limits, w).outputs, w.claims, w.at, t, w.at[t].stretch + 1);
  }

  ghost predicate Interleaves(counters: Counters, limits: Limits, allowPaid: bool, jobs: seq<Job>, w: World, moves: seq<Move>)
    decreases |moves|
  {
    moves != [] ==>
      && Able(counters, limits, allowPaid, jobs, w, moves[0])
      && Interleaves(counters, limits, allowPaid, jobs, Moved(counters, limits, allowPaid, jobs, w, moves[0]), moves[1..])
  }

  ghost function WorldAfter(counters: Counters, limits: Limits, allowPaid: bool, jobs: seq<Job>, w: World, moves: seq<Move>): World
    requires Interleaves(counters, limits, allowPaid, jobs, w, moves)
    decreases |moves|
  {
    if moves == [] then w
    else WorldAfter(counters, limits, allowPaid, jobs, Moved(counters, limits, allowPaid, jobs, w, moves[0]), moves[1..])
  }

  /** No dispatch has begun. */
  function Outset(jobs: seq<Job>): World {
    World([], [], seq(|jobs|, i => Before(0)))
  }

  lemma {:induction false} InterleavingKeeps(counters: Counters, limits: Limits, allowPaid: bool, jobs: seq<Job>, w: World, moves: seq<Move>)
    requires forall k | 0 <= k < |jobs| :: JobOk(jobs[k], allowPaid)
    requires WithinCaps(allowPaid, jobs, LedgerOf(counters, limits, w).outputs, w.claims, w.at)
    requires Interleaves(counters, limits, allowPaid, jobs, w, moves)
    ensures var v := WorldAfter(counters, limits, allowPaid, jobs, w, moves);
      WithinCaps(allowPaid, jobs, LedgerOf(counters, limits, v).outputs, v.claims, v.at)
    decreases |moves|
  {
    hide Able, Moved, WithinCaps, JobOk;
    if moves != [] {
      MoveKeeps(counters, limits, allowPaid, jobs, w, moves[0]);
      InterleavingKeeps(counters, limits, allowPaid, jobs, Moved(counters, limits, allowPaid, jobs, w, moves[0]), moves[1..]);
    }
  }

  lemma NothingMoved(counters: Counters, limits: Limits, allowPaid: bool, jobs: seq<Job>)
    ensures var w := Outset(jobs);
      WithinCaps(allowPaid, jobs, LedgerOf(counters, limits, w).outputs, w.claims, w.at)
  {
  }

  function Caps(claims: seq<Node>, allowPaid: bool): seq<nat> {
    seq(|claims|, i requires 0 <= i < |claims| => MostCalls(claims[i], allowPaid))
  }

  /**
   The overrun of the call ceiling, over every interleaving of dispatches: the calls are at most the ceiling, or
   what was spent before, plus, for every reservation that was granted, critics' included, its eligible models
   times its attempts, less the one call the reservation paid for.
   */
  lemma OverrunIsBounded(counters: Counters, limits: Limits, allowPaid: bool, jobs: seq<Job>, moves: seq<Move>)
    requires limits.maxCalls.Some?
    requires forall k | 0 <= k < |jobs| :: JobOk(jobs[k], allowPaid)
    requires Interleaves(counters, limits, allowPaid, jobs, Outset(jobs), moves)
    ensures var w := WorldAfter(counters, limits, allowPaid, jobs, Outset(jobs), moves);
      var floor := if counters.modelCalls > limits.maxCalls.value then counters.modelCalls else limits.maxCalls.value;
      LedgerOf(counters, limits, w).budget.counters.modelCalls <= floor + Excess(Caps(w.claims, allowPaid))
  {
    hide Interleaves, WorldAfter, Outset, MostCalls, Play, Excess, InStretch, JobOk;
    var w := WorldAfter(counters, limits, allowPaid, jobs, Outset(jobs), moves);
    NothingMoved(counters, limits, allowPaid, jobs);
    InterleavingKeeps(counters, limits, allowPaid, jobs, Outset(jobs), moves);
    OverrunBound(counters, limits, w.steps, Caps(w.claims, allowPaid));
  }
}
