/**
 Dispatches as workers.  What a dispatch reports depends on the counters it shares with others; the state
 it ends in does not, as long as no critic is refused a slot.  So runs of real dispatches have one worker.
 */
module Workers {
  import opened Wrappers
  import opened Dag
  import opened Events
  import opened RetryLattice
  import opened Dispatch
  import opened Verification
  import opened Loop
  import opened LoopInvariant
  import opened LoopFacts
  import opened LoopRuns
  import opened LoopTheorems
  import opened Denotation
  import opened RunLoop

  type Answers = (nat, Request) -> Answer

  /** No critic is refused a slot. */
  ghost predicate Granting(answers: Answers) {
    forall k, id :: answers(k, Slot(id)).breach == None
  }

  /** The same worker, shell and pre-checks beside another budget. */
  function With(env: Env, answers: Answers): Env {
    env.(budget := answers)
  }

  function CheckWith(c: Check, answers: Answers): Check {
    c.(env := With(c.env, answers))
  }

  // ----- The budget's answers do not show in the state

  lemma VisitWith(node: Node, env: Env, answers: Answers, v: Visit)
    ensures VisitOk(node, With(env, answers), v) == VisitOk(node, env, v)
  {
    hide Finishes, Retries;
  }

  lemma CourseWith(node: Node, env: Env, answers: Answers, allowPaid: bool, course: Course)
    ensures CourseOk(node, With(env, answers), allowPaid, course) == CourseOk(node, env, allowPaid, course)
  {
    hide VisitOk, Finished, Eligible, CommandFinishes;
    if course.Models? {
      forall i | 0 <= i < |course.visits|
        ensures VisitOk(node, With(env, answers), course.visits[i]) == VisitOk(node, env, course.visits[i])
      {
        VisitWith(node, env, answers, course.visits[i]);
      }
    }
  }

  lemma LeafWith(c: Check, answers: Answers, v: Verify, leaf: Leaf, ask: nat, ask': nat)
    requires Granting(c.env.budget) && Granting(answers) && LeafOk(c, v, leaf, ask)
    ensures LeafOk(CheckWith(c, answers), v, leaf, ask')
    ensures LeafFailure(CheckWith(c, answers), v, leaf, ask') == LeafFailure(c, v, leaf, ask)
  {
    hide CourseOk, CriticFailure;
    if leaf.CriticRan? && v.Critic? {
      CourseWith(CriticOf(c, v), c.env, answers, c.allowPaid, leaf.course);
    }
  }

  lemma EvaluatedWith(c: Check, answers: Answers, tree: seq<Verify>, leaves: seq<Leaf>, ok: bool, ask: nat, ask': nat)
    requires Granting(c.env.budget) && Granting(answers) && Evaluated(c, tree, leaves, ok, ask)
    ensures Evaluated(CheckWith(c, answers), tree, leaves, ok, ask')
    ensures forall i | 0 <= i < |leaves| :: FailureAt(CheckWith(c, answers), tree, leaves, ask', i) == FailureAt(c, tree, leaves, ask, i)
  {
    hide LeafOk, LeafFailure, Asks, Granting;
    forall i | 0 <= i < |leaves|
      ensures LeafAt(CheckWith(c, answers), tree, leaves, ask', i)
      ensures FailureAt(CheckWith(c, answers), tree, leaves, ask', i) == FailureAt(c, tree, leaves, ask, i)
    {
      assert LeafAt(c, tree, leaves, ask, i);
      LeafWith(c, answers, tree[i], leaves[i], ask + Asks(c, tree, leaves[..i]), ask' + Asks(CheckWith(c, answers), tree, leaves[..i]));
    }
  }

  /** One evaluation, whatever the two budgets answer. */
  lemma SameEvaluation(c: Check, answers: Answers, tree: seq<Verify>, a: seq<Leaf>, okA: bool, ask: nat, b: seq<Leaf>, okB: bool, ask': nat)
    requires Granting(c.env.budget) && Granting(answers)
    requires Evaluated(c, tree, a, okA, ask) && Evaluated(CheckWith(c, answers), tree, b, okB, ask')
    ensures a == b && okA == okB
    ensures forall i | 0 <= i < |a| :: FailureAt(c, tree, a, ask, i) == FailureAt(CheckWith(c, answers), tree, b, ask', i)
  {
    hide Evaluated, FailureAt, Granting;
    EvaluatedWith(c, answers, tree, a, okA, ask, ask');
    EvaluationIsUnique(CheckWith(c, answers), tree, a, okA, b, okB, ask');
  }

  lemma SameReason(c: Check, c': Check, v: Verify, leaves: seq<Leaf>, ask: nat, ask': nat)
    requires 0 < |leaves| <= |Leaves(v)|
    requires forall i | 0 <= i < |leaves| :: FailureAt(c, Leaves(v), leaves, ask, i) == FailureAt(c', Leaves(v), leaves, ask', i)
    ensures Reason(c, v, leaves, ask) == Reason(c', v, leaves, ask')
  {
    hide FailureAt, Path;
    assert FailureAt(c, Leaves(v), leaves, ask, |leaves| - 1) == FailureAt(c', Leaves(v), leaves, ask', |leaves| - 1);
  }

  /** A result of a dispatch beside some budget that refuses no critic. */
  ghost predicate Hands(env: Env, allowPaid: bool, node: Node, answers: Answers, ask: nat, course: Course, leaves: seq<Leaf>, r: TaskResult, ask': nat) {
    && Granting(answers)
    && CourseOk(node, With(env, answers), allowPaid, course)
    && Handed(node, With(env, answers), allowPaid, course, leaves, ask, r, ask')
  }

  /** Two dispatches of one node end in one state, and fail their verification alike, though their events may differ. */
  lemma StateIsBudgetFree(env: Env, allowPaid: bool, node: Node,
      b1: Answers, ask1: nat, course1: Course, leaves1: seq<Leaf>, r1: TaskResult, end1: nat,
      b2: Answers, ask2: nat, course2: Course, leaves2: seq<Leaf>, r2: TaskResult, end2: nat)
    requires Hands(env, allowPaid, node, b1, ask1, course1, leaves1, r1, end1)
    requires Hands(env, allowPaid, node, b2, ask2, course2, leaves2, r2, end2)
    ensures r1.state == r2.state && r1.verifyFailed == r2.verifyFailed
    ensures r1.attempt == r2.attempt && r1.taskModel == r2.taskModel && r1.modelUsed == r2.modelUsed
  {
    hide CourseOk, Evaluated, TreeEvents, Asks, CourseEvents, Worked, Truncated, Granting, FailureAt, Path;
    CourseWith(node, With(env, b1), b2, allowPaid, course1);
    CourseIsUnique(node, With(env, b2), allowPaid, course1, course2);
    if Worked(node, course1).status == Done {
      var c := CheckOf(node, With(env, b1), allowPaid, course1);
      assert CheckWith(c, b2) == CheckOf(node, With(env, b2), allowPaid, course2);
      assert node.verify.Some? ==> Tree(node) == Leaves(node.verify.value);
      var from1, from2 := ask1 + CourseOutputs(course1), ask2 + CourseOutputs(course2);
      SameEvaluation(c, b2, Tree(node), leaves1, !r1.verifyFailed, from1, leaves2, !r2.verifyFailed, from2);
      if r1.verifyFailed {
        Sizes(c, Tree(node), leaves1, false, from1);
        SameReason(c, CheckWith(c, b2), node.verify.value, leaves1, from1, from2);
      }
    }
  }

  // ----- The worker behind the dispatches

  ghost predicate HandedBy(env: Env, allowPaid: bool, node: Node, r: TaskResult) {
    exists answers: Answers, ask, course, leaves, ask' :: Hands(env, allowPaid, node, answers, ask, course, leaves, r, ask')
  }

  ghost function Handing(env: Env, allowPaid: bool, node: Node): (r: TaskResult)
    requires exists r :: HandedBy(env, allowPaid, node, r)
    ensures HandedBy(env, allowPaid, node, r)
  {
    var r :| HandedBy(env, allowPaid, node, r);
    r
  }

  ghost function WorkerOf(env: Env, allowPaid: bool): Worker {
    (n: Node) => if exists r :: HandedBy(env, allowPaid, n, r) then Handing(env, allowPaid, n).state else PENDING
  }

  lemma HandedIsWork(env: Env, allowPaid: bool, node: Node, r: TaskResult)
    requires HandedBy(env, allowPaid, node, r)
    ensures r.state == WorkerOf(env, allowPaid)(node)
  {
    hide Hands;
    var r2 := Handing(env, allowPaid, node);
    var b1: Answers, ask1, course1, leaves1, end1 :| Hands(env, allowPaid, node, b1, ask1, course1, leaves1, r, end1);
    var b2: Answers, ask2, course2, leaves2, end2 :| Hands(env, allowPaid, node, b2, ask2, course2, leaves2, r2, end2);
    StateIsBudgetFree(env, allowPaid, node, b1, ask1, course1, leaves1, r, end1, b2, ask2, course2, leaves2, r2, end2);
  }

  /** A dispatch is a worker: the state it ends in is a function of the node. */
  method DispatchAsWorker(node: Node, env: Env, allowPaid: bool, ask: nat) returns (r: TaskResult, ask': nat)
    requires Granting(env.budget)
    ensures r.Valid() && HandedBy(env, allowPaid, node, r) && r.state == WorkerOf(env, allowPaid)(node)
  {
    hide CourseOk, Handed, Granting;
    var course, leaves;
    r, course, ask', leaves := DispatchNode(node, env, allowPaid, ask);
    assert With(env, env.budget) == env;
    assert Hands(env, allowPaid, node, env.budget, ask, course, leaves, r, ask');
    HandedIsWork(env, allowPaid, node, r);
  }

  // ----- Runs of dispatches

  /** What a task hands back is the result of a dispatch of it, next to whatever else is running. */
  ghost predicate DispatchedStep(env: Env, allowPaid: bool, s: State, a: Action) {
    a.Finish? && a.id in s.running && s.running[a.id].Dispatch? ==> HandedBy(env, allowPaid, s.running[a.id].node, a.result)
  }

  lemma TakingIsFree(env: Env, allowPaid: bool, s: State, refuse: Option<string>)
    ensures DispatchedStep(env, allowPaid, s, Take(refuse))
  {
  }

  ghost predicate DispatchedRun(nodes: seq<Node>, env: Env, allowPaid: bool, s: State, acts: seq<Action>)
    requires IsRun(nodes, s, acts)
    decreases |acts|
  {
    acts != [] ==> DispatchedStep(env, allowPaid, s, acts[0]) && DispatchedRun(nodes, env, allowPaid, Step(nodes, s, acts[0]), acts[1..])
  }

  lemma DispatchedIsFaithfulStep(env: Env, allowPaid: bool, mode: Mode, s: State, a: Action)
    requires Enabled(s, a) && DispatchedStep(env, allowPaid, s, a)
    requires mode.work == Some(WorkerOf(env, allowPaid))
    ensures Faithful(mode, s, a)
  {
    hide HandedBy, WorkerOf;
    if a.Finish? && s.running[a.id].Dispatch? {
      HandedIsWork(env, allowPaid, s.running[a.id].node, a.result);
    }
  }

  lemma {:induction false} DispatchedIsFaithful(nodes: seq<Node>, env: Env, allowPaid: bool, mode: Mode, s: State, acts: seq<Action>)
    requires IsRun(nodes, s, acts) && DispatchedRun(nodes, env, allowPaid, s, acts)
    requires mode.work == Some(WorkerOf(env, allowPaid))
    ensures FaithfulRun(nodes, mode, s, acts)
    decreases |acts|
  {
    hide Step, Enabled, Faithful, DispatchedStep, WorkerOf;
    if acts != [] {
      DispatchedIsFaithfulStep(env, allowPaid, mode, s, acts[0]);
      DispatchedIsFaithful(nodes, env, allowPaid, mode, Step(nodes, s, acts[0]), acts[1..]);
    }
  }

  /** A first run of dispatches, in any completion order. */
  ghost predicate Dispatches(nodes: seq<Node>, env: Env, allowPaid: bool, s: State) {
    exists s0, acts: seq<Action> ::
      Initial(nodes, s0) && IsRun(nodes, s0, acts) && DispatchedRun(nodes, env, allowPaid, s0, acts) && s == After(nodes, s0, acts)
  }

  lemma {:induction false} DispatchedSnoc(nodes: seq<Node>, env: Env, allowPaid: bool, s: State, acts: seq<Action>, a: Action)
    requires IsRun(nodes, s, acts) && DispatchedRun(nodes, env, allowPaid, s, acts)
    requires Enabled(After(nodes, s, acts), a) && DispatchedStep(env, allowPaid, After(nodes, s, acts), a)
    ensures IsRun(nodes, s, acts + [a]) && DispatchedRun(nodes, env, allowPaid, s, acts + [a])
    ensures After(nodes, s, acts + [a]) == Step(nodes, After(nodes, s, acts), a)
    decreases |acts|
  {
    hide Enabled, Step, DispatchedStep;
    if acts == [] {
      assert [] + [a] == [a] && [a][1..] == [];
    } else {
      assert (acts + [a])[1..] == acts[1..] + [a];
      DispatchedSnoc(nodes, env, allowPaid, Step(nodes, s, acts[0]), acts[1..], a);
    }
  }

  lemma StartDispatches(nodes: seq<Node>, env: Env, allowPaid: bool, s: State)
    requires Initial(nodes, s)
    ensures Dispatches(nodes, env, allowPaid, s)
  {
    hide Initial;
    assert IsRun(nodes, s, []) && DispatchedRun(nodes, env, allowPaid, s, []) && After(nodes, s, []) == s;
  }

  lemma StepDispatches(nodes: seq<Node>, env: Env, allowPaid: bool, s: State, a: Action)
    requires Dispatches(nodes, env, allowPaid, s) && Enabled(s, a) && DispatchedStep(env, allowPaid, s, a)
    ensures Dispatches(nodes, env, allowPaid, Step(nodes, s, a))
  {
    hide Initial, Enabled, Step, IsRun, After, DispatchedRun, DispatchedStep;
    var s0, acts: seq<Action> :|
      Initial(nodes, s0) && IsRun(nodes, s0, acts) && DispatchedRun(nodes, env, allowPaid, s0, acts) && s == After(nodes, s0, acts);
    DispatchedSnoc(nodes, env, allowPaid, s0, acts, a);
  }

  lemma DispatchesProduces(nodes: seq<Node>, env: Env, allowPaid: bool, s: State)
    requires Dispatches(nodes, env, allowPaid, s)
    ensures Produces(nodes, WorkerOf(env, allowPaid), s)
  {
    hide Initial, IsRun, After, DispatchedRun, FaithfulRun, WorkerOf;
    var s0, acts: seq<Action> :|
      Initial(nodes, s0) && IsRun(nodes, s0, acts) && DispatchedRun(nodes, env, allowPaid, s0, acts) && s == After(nodes, s0, acts);
    DispatchedIsFaithful(nodes, env, allowPaid, WorkMode(WorkerOf(env, allowPaid)), s0, acts);
  }

  /**
   Completion order does not matter: two runs of dispatches of one worker, one shell and one set of
   pre-checks, whose shared counters went through whatever values, end with the same states and outputs.
   */
  lemma CompletionOrderIsFree(nodes: seq<Node>, env: Env, allowPaid: bool, rank: map<Id, nat>, s: State, t: State)
    requires WellFormed(nodes) && Ranked(nodes, rank)
    requires Dispatches(nodes, env, allowPaid, s) && Exited(s) && !s.refused
    requires Dispatches(nodes, env, allowPaid, t) && Exited(t) && !t.refused
    ensures s.nodeState == t.nodeState == Finals(nodes, WorkerOf(env, allowPaid), rank)
  {
    hide WellFormed, Ranked, Dispatches, Exited, Finals, WorkerOf, Produces;
    DispatchesProduces(nodes, env, allowPaid, s);
    DispatchesProduces(nodes, env, allowPaid, t);
    ScheduleIndependence(nodes, WorkerOf(env, allowPaid), rank, s);
    ScheduleIndependence(nodes, WorkerOf(env, allowPaid), rank, t);
  }

  /** Results that dispatches hand back are those of one worker, so the scheduler's theorems apply to them. */
  lemma ResultsAreOfWorker(results: Results, env: Env, allowPaid: bool)
    requires forall i, n :: HandedBy(env, allowPaid, n, results(i, n))
    ensures OfWorker(results, WorkerOf(env, allowPaid))
  {
    hide HandedBy, WorkerOf;
    forall i, n
      ensures results(i, n).state == WorkerOf(env, allowPaid)(n)
    {
      HandedIsWork(env, allowPaid, n, results(i, n));
    }
  }
}
