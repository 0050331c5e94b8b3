/** Verification of a dispatch: the tree of checks, fail-closed, and the whole of `dispatch_node`. */
module Verification {
  import opened Wrappers
  import opened Text
  import opened Dag
  import opened Events
  import opened RetryLattice
  import opened Dispatch
  import opened Verdict
  import opened Template

  // ----- The course of a dispatch

  datatype Course =
    | PreFailed(message: string)
    | NoModels
    | Command(replies: seq<Reply>)
    | Models(visits: seq<Visit>)

  ghost predicate CourseOk(node: Node, env: Env, allowPaid: bool, c: Course) {
    if node.verifyPre.Some? && env.pre(node.verifyPre.value).Err? then c == PreFailed(env.pre(node.verifyPre.value).error)
    else if node.models != [] then c.Models? && TraceOk(node, env, allowPaid, c.visits)
    else if node.nodeType == Some("shell") then c.Command? && CommandOk(node, env, c.replies)
    else c.NoModels?
  }

  /** The state the course leads to, before verification. */
  function Worked(node: Node, c: Course): NodeState {
    match c
    case PreFailed(message) => NodeState(Failed, None, 0, Some("verify_pre failed for node " + node.id + ": " + message))
    case NoModels => NodeState(Failed, None, 0, Some("no models specified for LLM node"))
    case Command(replies) => CommandSettled(node, replies)
    case Models(visits) => Settled(node, visits)
  }

  function CourseEvents(node: Node, env: Env, c: Course, ask: nat): seq<DispatchEvent> {
    match c
    case Command(replies) => CommandEvents(node, replies)
    case Models(visits) => Narrated(node, env, visits, ask)
    case _ => []
  }

  function CourseAttempt(c: Course): nat {
    match c
    case Command(replies) => |replies|
    case Models(visits) => AttemptsOf(visits)
    case _ => 0
  }

  function CourseOutputs(c: Course): nat {
    match c
    case Models(visits) => TotalOutputs(visits)
    case _ => 0
  }

  lemma CommandUnique(node: Node, env: Env, a: seq<Reply>, b: seq<Reply>)
    requires CommandOk(node, env, a) && CommandOk(node, env, b)
    ensures a == b
  {
    hide CommandFinishes;
    assert forall i | 0 <= i < |a| && i < |b| :: a[i] == b[i];
  }

  /** Given the worker, a dispatch has one course. */
  lemma CourseIsUnique(node: Node, env: Env, allowPaid: bool, a: Course, b: Course)
    requires CourseOk(node, env, allowPaid, a) && CourseOk(node, env, allowPaid, b)
    ensures a == b
  {
    hide TraceOk, CommandOk;
    if a.Models? {
      TraceUnique(node, env, allowPaid, a.visits, b.visits);
    } else if a.Command? {
      CommandUnique(node, env, a.replies, b.replies);
    }
  }

  /** A node is Done before verification exactly when its last call was accepted. */
  lemma WorkedIsDone(node: Node, env: Env, allowPaid: bool, visits: seq<Visit>)
    requires TraceOk(node, env, allowPaid, visits)
    ensures Settled(node, visits).status == Done <==>
      visits != [] && visits[|visits| - 1].replies != [] &&
      Accepted(node, visits[|visits| - 1].replies[|visits[|visits| - 1].replies| - 1])
    ensures Settled(node, visits).status == Done || Settled(node, visits).status == Failed
  {
  }

  // ----- The checks

  /** What every check of one node goes by. */
  datatype Check = Check(node: Node, env: Env, allowPaid: bool, workerOutput: string, token: Option<string>)

  /** A leaf of the tree as it was evaluated. */
  datatype Leaf = ShellRan | CriticBlocked | CriticRan(course: Course)

  function CriticNode(node: Node, prompt: string, models: seq<ModelRef>, workerOutput: string): Node {
    Node(node.id + "::verify", Interpolate(prompt, map[node.id := workerOutput]), [], models, node.retry,
         None, None, None, [], None, None, None, None)
  }

  function CriticOf(c: Check, v: Verify): Node
    requires v.Critic?
  {
    CriticNode(c.node, v.prompt, v.models, c.workerOutput)
  }

  predicate NobodyEligible(models: seq<ModelRef>, allowPaid: bool) {
    models != [] && Eligible(models, allowPaid) == []
  }

  /** The budget's answer to the critic's request for a slot. */
  function SlotAnswer(c: Check, ask: nat): Answer {
    c.env.budget(ask, Slot(c.node.id + "::verify"))
  }

  /** A critic is blocked when no model of its may be used, or the budget refuses it a slot; else it is dispatched. */
  ghost predicate LeafOk(c: Check, v: Verify, leaf: Leaf, ask: nat) {
    match v
    case Shell(_) => leaf.ShellRan?
    case Critic(_, models) =>
      if NobodyEligible(models, c.allowPaid) || SlotAnswer(c, ask).breach.Some? then leaf.CriticBlocked?
      else leaf.CriticRan? && CourseOk(CriticOf(c, v), c.env, c.allowPaid, leaf.course)
    case All(_) => false
  }

  const BLOCKED_PAID: string := "critic blocked: allow_paid is disabled and every configured critic model is paid"

  /** Only a critic that ends Done with a passing verdict passes. */
  function CriticFailure(critic: Node, course: Course): Option<string> {
    var state := Worked(critic, course);
    if state.status == Done then
      var verdict := VerdictOf(OrEmpty(state.output));
      if verdict.passed then None else Some(verdict.reason)
    else
      Some("critic dispatch failed: " + match state.output case None => "critic worker produced no output" case Some(text) => text)
  }

  /** Why the leaf did not pass, if it did not. */
  function LeafFailure(c: Check, v: Verify, leaf: Leaf, ask: nat): Option<string> {
    match v
    case Shell(cmd) => c.env.shell(cmd, c.token)
    case Critic(_, models) =>
      if leaf.CriticRan? then CriticFailure(CriticOf(c, v), leaf.course)
      else if NobodyEligible(models, c.allowPaid) then Some(BLOCKED_PAID)
      else Some("critic blocked: budget ceiling exceeded (" + OrEmpty(SlotAnswer(c, ask).breach) + ")")
    case All(_) => None
  }

  /** How often the leaf asked the budget. */
  function LeafAsks(c: Check, v: Verify, leaf: Leaf): nat {
    match leaf
    case ShellRan => 0
    case CriticBlocked => if v.Critic? && NobodyEligible(v.models, c.allowPaid) then 0 else 1
    case CriticRan(course) => 1 + CourseOutputs(course)
  }

  function LeafEvents(c: Check, v: Verify, leaf: Leaf, ask: nat): seq<DispatchEvent> {
    if !v.Critic? || leaf.ShellRan? then []
    else if leaf.CriticBlocked? then
      if NobodyEligible(v.models, c.allowPaid) then [] else [CeilingTripped(OrEmpty(SlotAnswer(c, ask).breach))]
    else
      var eligible := Eligible(v.models, c.allowPaid);
      (if eligible == [] then [] else [CriticDispatched(eligible[0].name)]) + CourseEvents(CriticOf(c, v), c.env, leaf.course, ask + 1)
  }

  /** The leaves of the tree in order. */
  function Leaves(v: Verify): seq<Verify> {
    match v
    case All(arms) => LeavesOfAll(arms)
    case _ => [v]
  }

  function LeavesOfAll(arms: seq<Verify>): seq<Verify> {
    if arms == [] then [] else LeavesOfAll(arms[..|arms| - 1]) + Leaves(arms[|arms| - 1])
  }

  function Asks(c: Check, tree: seq<Verify>, leaves: seq<Leaf>): nat
    requires |leaves| <= |tree|
  {
    if leaves == [] then 0
    else
      var n := |leaves| - 1;
      Asks(c, tree, leaves[..n]) + LeafAsks(c, tree[n], leaves[n])
  }

  function TreeEvents(c: Check, tree: seq<Verify>, leaves: seq<Leaf>, ask: nat): seq<DispatchEvent>
    requires |leaves| <= |tree|
  {
    if leaves == [] then []
    else
      var n := |leaves| - 1;
      TreeEvents(c, tree, leaves[..n], ask) + LeafEvents(c, tree[n], leaves[n], ask + Asks(c, tree, leaves[..n]))
  }

  /** Why the leaf at `i` did not pass, if it did not. */
  function FailureAt(c: Check, tree: seq<Verify>, leaves: seq<Leaf>, ask: nat, i: nat): Option<string>
    requires i < |leaves| <= |tree|
  {
    LeafFailure(c, tree[i], leaves[i], ask + Asks(c, tree, leaves[..i]))
  }

  ghost predicate LeafAt(c: Check, tree: seq<Verify>, leaves: seq<Leaf>, ask: nat, i: nat)
    requires i < |leaves| <= |tree|
  {
    LeafOk(c, tree[i], leaves[i], ask + Asks(c, tree, leaves[..i]))
  }

  /** Evaluated from the left, to the end or to the first leaf that does not pass. */
  ghost predicate Evaluated(c: Check, tree: seq<Verify>, leaves: seq<Leaf>, ok: bool, ask: nat) {
    && |leaves| <= |tree|
    && (forall i | 0 <= i < |leaves| :: LeafAt(c, tree, leaves, ask, i))
    && (forall i | 0 <= i < |leaves| - 1 :: FailureAt(c, tree, leaves, ask, i) == None)
    && if ok then |leaves| == |tree| && (leaves != [] ==> FailureAt(c, tree, leaves, ask, |leaves| - 1) == None)
       else leaves != [] && FailureAt(c, tree, leaves, ask, |leaves| - 1).Some?
  }

  function KindOf(v: Verify): string {
    match v
    case Shell(_) => "shell"
    case Critic(_, _) => "critic"
    case All(_) => "all"
  }

  /** The arms on the way to leaf number `n`, as a failure names them. */
  function Path(v: Verify, n: nat): string
    decreases v, 1
  {
    match v
    case All(arms) => PathIn(v, 0, n)
    case _ => ""
  }

  function PathIn(v: Verify, i: nat, n: nat): string
    requires v.All? && i <= |v.arms|
    decreases v, 0, |v.arms| - i
  {
    if i == |v.arms| then ""
    else if n < |Leaves(v.arms[i])| then ArmFailed(i, v.arms[i]) + Path(v.arms[i], n)
    else PathIn(v, i + 1, n - |Leaves(v.arms[i])|)
  }

  function ArmFailed(i: nat, arm: Verify): string {
    "arm " + Decimal(i) + " (" + KindOf(arm) + ") failed: "
  }

  /** The reason of a failed evaluation: the way to the failing leaf, and why that failed. */
  function Reason(c: Check, v: Verify, leaves: seq<Leaf>, ask: nat): string
    requires 0 < |leaves| <= |Leaves(v)|
  {
    var last: nat := |leaves| - 1;
    Path(v, last) + OrEmpty(FailureAt(c, Leaves(v), leaves, ask, last))
  }

  /** The reason names the failing arm, counted from zero, on every level, and then what the leaf itself says. */
  lemma ReasonLeads(v: Verify, i: nat, n: nat)
    requires v.All? && i < |v.arms| && n < |Leaves(v.arms[i])|
    ensures Path(v, |LeavesOfAll(v.arms[..i])| + n)
         == "arm " + Decimal(i) + " (" + (if v.arms[i].Shell? then "shell" else if v.arms[i].Critic? then "critic" else "all") + ") failed: "
            + Path(v.arms[i], n)
    ensures !v.arms[i].All? ==> Leaves(v.arms[i]) == [v.arms[i]] && Path(v.arms[i], 0) == ""
  {
    hide LeavesOfAll, Decimal;
    PathThrough(v, i, n);
  }

  // ----- An evaluation is determined

  lemma SameLeaf(c: Check, v: Verify, a: Leaf, b: Leaf, ask: nat)
    requires LeafOk(c, v, a, ask) && LeafOk(c, v, b, ask)
    ensures a == b
  {
    hide CourseOk;
    if a.CriticRan? {
      CourseIsUnique(CriticOf(c, v), c.env, c.allowPaid, a.course, b.course);
    }
  }

  lemma {:induction false} LeavesAgree(c: Check, tree: seq<Verify>, a: seq<Leaf>, okA: bool, b: seq<Leaf>, okB: bool, ask: nat, n: nat)
    requires Evaluated(c, tree, a, okA, ask) && Evaluated(c, tree, b, okB, ask) && n <= |a| && n <= |b|
    ensures a[..n] == b[..n]
  {
    hide LeafOk, Asks, LeafFailure;
    if n > 0 {
      LeavesAgree(c, tree, a, okA, b, okB, ask, n - 1);
      assert LeafAt(c, tree, a, ask, n - 1) && LeafAt(c, tree, b, ask, n - 1);
      SameLeaf(c, tree[n - 1], a[n - 1], b[n - 1], ask + Asks(c, tree, a[..n - 1]));
      assert a[..n] == a[..n - 1] + [a[n - 1]] && b[..n] == b[..n - 1] + [b[n - 1]];
    }
  }

  lemma NoShorter(c: Check, tree: seq<Verify>, a: seq<Leaf>, okA: bool, b: seq<Leaf>, okB: bool, ask: nat)
    requires Evaluated(c, tree, a, okA, ask) && Evaluated(c, tree, b, okB, ask)
    ensures |a| >= |b|
  {
    hide LeafOk, Asks, LeafFailure, LeafAt;
    if |a| < |b| {
      LeavesAgree(c, tree, a, okA, b, okB, ask, |a|);
      assert a[..|a|] == a;
      SameFailure(c, tree, a, b, ask, |a| - 1);
    }
  }

  lemma SameFailure(c: Check, tree: seq<Verify>, a: seq<Leaf>, b: seq<Leaf>, ask: nat, i: nat)
    requires i < |a| <= |tree| && i < |b| <= |tree| && a[..i + 1] == b[..i + 1]
    ensures FailureAt(c, tree, a, ask, i) == FailureAt(c, tree, b, ask, i)
  {
    assert a[..i] == a[..i + 1][..i] && b[..i] == b[..i + 1][..i];
    assert a[i] == a[..i + 1][i] && b[i] == b[..i + 1][i];
  }

  /** Given the worker, the shell and the budget's answers, a tree is evaluated in one way, with one outcome. */
  lemma EvaluationIsUnique(c: Check, tree: seq<Verify>, a: seq<Leaf>, okA: bool, b: seq<Leaf>, okB: bool, ask: nat)
    requires Evaluated(c, tree, a, okA, ask) && Evaluated(c, tree, b, okB, ask)
    ensures a == b && okA == okB
  {
    NoShorter(c, tree, a, okA, b, okB, ask);
    NoShorter(c, tree, b, okB, a, okA, ask);
    LeavesAgree(c, tree, a, okA, b, okB, ask, |a|);
    assert a[..|a|] == a && b[..|b|] == b;
  }

  // ----- Arm after arm

  lemma {:induction false} AsksJoin(c: Check, before: seq<Verify>, arm: seq<Verify>, done: seq<Leaf>, leaves: seq<Leaf>, ask: nat)
    requires |done| == |before| && |leaves| <= |arm|
    ensures Asks(c, before + arm, done + leaves) == Asks(c, before, done) + Asks(c, arm, leaves)
    ensures TreeEvents(c, before + arm, done + leaves, ask)
         == TreeEvents(c, before, done, ask) + TreeEvents(c, arm, leaves, ask + Asks(c, before, done))
  {
    hide LeafAsks, LeafEvents;
    if leaves == [] {
      assert done + leaves == done;
      OnlyTheFirst(c, before, arm, done, ask);
    } else {
      var n := |leaves| - 1;
      AsksJoin(c, before, arm, done, leaves[..n], ask);
      assert (done + leaves)[..|done| + n] == done + leaves[..n];
      assert (before + arm)[|done| + n] == arm[n] && (done + leaves)[|done| + n] == leaves[n];
    }
  }

  /** Leaves that were not evaluated do not matter. */
  lemma {:induction false} OnlyTheFirst(c: Check, tree: seq<Verify>, rest: seq<Verify>, leaves: seq<Leaf>, ask: nat)
    requires |leaves| <= |tree|
    ensures Asks(c, tree + rest, leaves) == Asks(c, tree, leaves)
    ensures TreeEvents(c, tree + rest, leaves, ask) == TreeEvents(c, tree, leaves, ask)
  {
    hide LeafAsks, LeafEvents;
    if leaves != [] {
      OnlyTheFirst(c, tree, rest, leaves[..|leaves| - 1], ask);
    }
  }

  lemma JoinedAt(c: Check, before: seq<Verify>, arm: seq<Verify>, done: seq<Leaf>, leaves: seq<Leaf>, ask: nat, i: nat)
    requires |done| == |before| && |leaves| <= |arm| && i < |done| + |leaves|
    ensures var tree, all := before + arm, done + leaves;
      if i < |done| then
        && LeafAt(c, tree, all, ask, i) == LeafAt(c, before, done, ask, i)
        && FailureAt(c, tree, all, ask, i) == FailureAt(c, before, done, ask, i)
      else
        var k, from := i - |done|, ask + Asks(c, before, done);
        && LeafAt(c, tree, all, ask, i) == LeafAt(c, arm, leaves, from, k)
        && FailureAt(c, tree, all, ask, i) == FailureAt(c, arm, leaves, from, k)
  {
    hide LeafOk, LeafFailure, Asks, TreeEvents;
    var tree, all := before + arm, done + leaves;
    if i < |done| {
      assert all[..i] == done[..i] && tree[i] == before[i] && all[i] == done[i];
      OnlyTheFirst(c, before, arm, done[..i], ask);
    } else {
      var k := i - |done|;
      assert all[..i] == done + leaves[..k] && tree[i] == arm[k] && all[i] == leaves[k];
      AsksJoin(c, before, arm, done, leaves[..k], ask);
    }
  }

  lemma EvaluatedArm(c: Check, before: seq<Verify>, arm: seq<Verify>, done: seq<Leaf>, leaves: seq<Leaf>, ok: bool, ask: nat)
    requires Evaluated(c, before, done, true, ask) && Evaluated(c, arm, leaves, ok, ask + Asks(c, before, done))
    ensures Evaluated(c, before + arm, done + leaves, ok, ask)
  {
    hide LeafAt, FailureAt, Asks;
    var all, tree := done + leaves, before + arm;
    forall i | 0 <= i < |all|
      ensures LeafAt(c, tree, all, ask, i)
      ensures i < |all| - 1 ==> FailureAt(c, tree, all, ask, i) == None
    {
      JoinedAt(c, before, arm, done, leaves, ask, i);
    }
    if all != [] {
      JoinedAt(c, before, arm, done, leaves, ask, |all| - 1);
    }
  }

  /** Arms after the one that fails do not matter. */
  lemma EvaluatedMore(c: Check, tree: seq<Verify>, rest: seq<Verify>, leaves: seq<Leaf>, ask: nat)
    requires Evaluated(c, tree, leaves, false, ask)
    ensures Evaluated(c, tree + rest, leaves, false, ask)
  {
    hide LeafAt, FailureAt, Asks;
    forall i | 0 <= i < |leaves|
      ensures LeafAt(c, tree + rest, leaves, ask, i) == LeafAt(c, tree, leaves, ask, i)
      ensures FailureAt(c, tree + rest, leaves, ask, i) == FailureAt(c, tree, leaves, ask, i)
    {
      SameAt(c, tree, rest, leaves, ask, i);
    }
  }

  lemma SameAt(c: Check, tree: seq<Verify>, rest: seq<Verify>, leaves: seq<Leaf>, ask: nat, i: nat)
    requires i < |leaves| <= |tree|
    ensures LeafAt(c, tree + rest, leaves, ask, i) == LeafAt(c, tree, leaves, ask, i)
    ensures FailureAt(c, tree + rest, leaves, ask, i) == FailureAt(c, tree, leaves, ask, i)
  {
    hide LeafOk, LeafFailure, Asks, TreeEvents;
    OnlyTheFirst(c, tree, rest, leaves[..i], ask);
  }

  lemma {:induction false} LeavesPrefix(arms: seq<Verify>, i: nat)
    requires i <= |arms|
    ensures exists rest :: LeavesOfAll(arms) == LeavesOfAll(arms[..i]) + rest
    decreases |arms| - i
  {
    if i == |arms| {
      assert arms[..i] == arms;
      assert LeavesOfAll(arms) == LeavesOfAll(arms[..i]) + [];
    } else {
      assert arms[..i + 1][..i] == arms[..i];
      LeavesPrefix(arms, i + 1);
      var rest :| LeavesOfAll(arms) == LeavesOfAll(arms[..i + 1]) + rest;
      JoinLeaves(LeavesOfAll(arms[..i]), Leaves(arms[i]), rest);
    }
  }

  lemma JoinLeaves(a: seq<Verify>, b: seq<Verify>, c: seq<Verify>)
    ensures a + b + c == a + (b + c)
  {
  }

  /** The way to a leaf of arm `i` leads through arm `i`. */
  lemma {:induction false} PathThrough(v: Verify, i: nat, n: nat)
    requires v.All? && i < |v.arms| && n < |Leaves(v.arms[i])|
    ensures Path(v, |LeavesOfAll(v.arms[..i])| + n) == ArmFailed(i, v.arms[i]) + Path(v.arms[i], n)
  {
    hide ArmFailed;
    PathSkips(v, i, n);
  }

  lemma {:induction false} PathSkips(v: Verify, i: nat, n: nat)
    requires v.All? && i <= |v.arms|
    ensures PathIn(v, 0, |LeavesOfAll(v.arms[..i])| + n) == PathIn(v, i, n)
  {
    hide ArmFailed, Path;
    if i > 0 {
      assert v.arms[..i][..i - 1] == v.arms[..i - 1];
      PathSkips(v, i - 1, |Leaves(v.arms[i - 1])| + n);
    }
  }

  // ----- Evaluating them

  /** A critic is a dispatch of its own, paid for with a slot of the budget.  Here and below the course taken is handed back, too. */
  method EvalCritic(c: Check, critic: Verify, ask: nat)
    returns (reason: Option<string>, events: seq<DispatchEvent>, ask': nat, leaf: Leaf)
    requires critic.Critic?
    ensures LeafOk(c, critic, leaf, ask) && reason == LeafFailure(c, critic, leaf, ask)
    ensures events == LeafEvents(c, critic, leaf, ask) && ask' == ask + LeafAsks(c, critic, leaf)
    decreases 1, critic, 0
  {
    hide CourseOk, CourseEvents, Worked, Interpolate, VerdictOf;
    ask' := ask;
    var models := critic.models;
    var eligible := Eligible(models, c.allowPaid);
    if models != [] && eligible == [] {
      return Some(BLOCKED_PAID), [], ask', CriticBlocked;
    }
    var slot := c.env.budget(ask', Slot(c.node.id + "::verify"));
    ask' := ask' + 1;
    if slot.breach.Some? {
      return Some("critic blocked: budget ceiling exceeded (" + slot.breach.value + ")"), [CeilingTripped(slot.breach.value)], ask', CriticBlocked;
    }
    var prompt := InterpolateOutputs(critic.prompt, map[c.node.id := c.workerOutput]);
    var criticNode := Node(c.node.id + "::verify", prompt, [], models, c.node.retry,
                           None, None, None, [], None, None, None, None);
    assert criticNode == CriticOf(c, critic);
    events := if eligible == [] then [] else [CriticDispatched(eligible[0].name)];
    var r;
    var course, leaves;
    r, course, ask', leaves := DispatchNode(criticNode, c.env, c.allowPaid, ask');
    NothingToCheck(CheckOf(criticNode, c.env, c.allowPaid, course), leaves, !r.verifyFailed, ask + 1 + CourseOutputs(course));
    events := events + r.events;
    leaf := CriticRan(course);
    if r.state.status == Done {
      var verdict := ParseCriticVerdict(OrEmpty(r.state.output));
      reason := if verdict.passed then None else Some(verdict.reason);
    } else {
      var detail := match r.state.output case None => "critic worker produced no output" case Some(text) => text;
      reason := Some("critic dispatch failed: " + detail);
    }
  }

  lemma NothingToCheck(c: Check, leaves: seq<Leaf>, ok: bool, ask: nat)
    ensures Evaluated(c, [], leaves, ok, ask) ==> leaves == [] && ok
    ensures Asks(c, [], []) == 0 && TreeEvents(c, [], [], ask) == [] && Evaluated(c, [], [], true, ask)
  {
    hide LeafAt, FailureAt;
  }

  /** What evaluating a tree hands back, given the leaves evaluated. */
  ghost predicate Judged(c: Check, v: Verify, ask: nat, reason: Option<string>, events: seq<DispatchEvent>, ask': nat, leaves: seq<Leaf>) {
    && Evaluated(c, Leaves(v), leaves, reason.None?, ask)
    && (reason.Some? ==> reason.value == Reason(c, v, leaves, ask))
    && events == TreeEvents(c, Leaves(v), leaves, ask)
    && ask' == ask + Asks(c, Leaves(v), leaves)
  }

  /** The same while the first `i` arms have passed. */
  ghost predicate Passing(c: Check, v: Verify, i: nat, ask: nat, events: seq<DispatchEvent>, ask': nat, leaves: seq<Leaf>)
    requires v.All? && i <= |v.arms|
  {
    var tree := LeavesOfAll(v.arms[..i]);
    Evaluated(c, tree, leaves, true, ask) && events == TreeEvents(c, tree, leaves, ask) && ask' == ask + Asks(c, tree, leaves)
  }

  method EvalVerify(c: Check, v: Verify, ask: nat)
    returns (reason: Option<string>, events: seq<DispatchEvent>, ask': nat, leaves: seq<Leaf>)
    ensures Judged(c, v, ask, reason, events, ask', leaves)
    decreases 1, v, 1
  {
    hide LeafOk, LeafFailure, LeafEvents, LeafAsks, Judged;
    ask', events, leaves := ask, [], [];
    match v
    case Shell(cmd) =>
      reason := c.env.shell(cmd, c.token);
      leaves := [ShellRan];
      ShellLeaf(c, v, ask);
      OneLeaf(c, v, ShellRan, ask);
      assert reason == LeafFailure(c, v, ShellRan, ask) && events == LeafEvents(c, v, ShellRan, ask);
    case Critic(_, _) =>
      var leaf;
      reason, events, ask', leaf := EvalCritic(c, v, ask);
      leaves := [leaf];
      OneLeaf(c, v, leaf, ask);
    case All(arms) =>
      reason, events, ask', leaves := EvalArms(c, v, ask);
  }

  lemma ShellLeaf(c: Check, v: Verify, ask: nat)
    requires v.Shell?
    ensures LeafOk(c, v, ShellRan, ask) && LeafFailure(c, v, ShellRan, ask) == c.env.shell(v.cmd, c.token)
    ensures LeafEvents(c, v, ShellRan, ask) == [] && LeafAsks(c, v, ShellRan) == 0
  {
  }

  lemma OneLeaf(c: Check, v: Verify, leaf: Leaf, ask: nat)
    requires !v.All? && LeafOk(c, v, leaf, ask)
    ensures Judged(c, v, ask, LeafFailure(c, v, leaf, ask), LeafEvents(c, v, leaf, ask), ask + LeafAsks(c, v, leaf), [leaf])
  {
    hide LeafOk, LeafFailure, LeafEvents, LeafAsks;
    var tree, leaves := [v], [leaf];
    assert Leaves(v) == tree && leaves[..0] == [];
    assert Asks(c, tree, leaves) == LeafAsks(c, v, leaf) && Asks(c, tree, []) == 0;
    assert TreeEvents(c, tree, [], ask) == [] && [] + LeafEvents(c, v, leaf, ask) == LeafEvents(c, v, leaf, ask);
    assert FailureAt(c, tree, leaves, ask, 0) == LeafFailure(c, v, leaf, ask) && LeafAt(c, tree, leaves, ask, 0);
    var why := OrEmpty(LeafFailure(c, v, leaf, ask));
    assert Path(v, 0) == "" && "" + why == why;
  }

  /** Every arm must pass; the first that fails ends the evaluation. */
  method EvalArms(c: Check, v: Verify, ask: nat)
    returns (reason: Option<string>, events: seq<DispatchEvent>, ask': nat, leaves: seq<Leaf>)
    requires v.All?
    ensures Judged(c, v, ask, reason, events, ask', leaves)
    decreases 1, v, 0
  {
    hide Judged, Passing, ArmFailed;
    ask', events, leaves := ask, [], [];
    var arms := v.arms;
    NoArms(c, v, ask);
    for i := 0 to |arms|
      invariant Passing(c, v, i, ask, events, ask', leaves)
    {
      var armEvents, asked;
      var armLeaves;
      reason, armEvents, asked, armLeaves := EvalVerify(c, arms[i], ask');
      if reason.Some? {
        ArmFails(c, v, i, ask, events, ask', leaves, reason.value, armEvents, asked, armLeaves);
        return Some(ArmFailed(i, arms[i]) + reason.value), events + armEvents, asked, leaves + armLeaves;
      }
      ArmPasses(c, v, i, ask, events, ask', leaves, armEvents, asked, armLeaves);
      events, ask', leaves := events + armEvents, asked, leaves + armLeaves;
    }
    AllPassed(c, v, ask, events, ask', leaves);
    reason := None;
  }

  lemma NoArms(c: Check, v: Verify, ask: nat)
    requires v.All?
    ensures Passing(c, v, 0, ask, [], ask, [])
  {
    NothingToCheck(c, [], true, ask);
  }

  lemma AllPassed(c: Check, v: Verify, ask: nat, events: seq<DispatchEvent>, ask': nat, leaves: seq<Leaf>)
    requires v.All? && Passing(c, v, |v.arms|, ask, events, ask', leaves)
    ensures Judged(c, v, ask, None, events, ask', leaves)
  {
    hide Evaluated, TreeEvents, Asks, Reason;
    assert v.arms[..|v.arms|] == v.arms;
  }

  /** One more arm passes. */
  lemma ArmPasses(c: Check, v: Verify, i: nat, ask: nat, events: seq<DispatchEvent>, mid: nat, done: seq<Leaf>, armEvents: seq<DispatchEvent>, ask': nat, leaves: seq<Leaf>)
    requires v.All? && i < |v.arms| && Passing(c, v, i, ask, events, mid, done)
    requires Judged(c, v.arms[i], mid, None, armEvents, ask', leaves)
    ensures Passing(c, v, i + 1, ask, events + armEvents, ask', done + leaves)
  {
    hide LeavesOfAll, Leaves, Evaluated, TreeEvents, Asks, Reason;
    var before, arm := LeavesOfAll(v.arms[..i]), Leaves(v.arms[i]);
    OneMoreArm(v, i);
    Sizes(c, before, done, true, ask);
    Sizes(c, arm, leaves, true, mid);
    AsksJoin(c, before, arm, done, leaves, ask);
    EvaluatedArm(c, before, arm, done, leaves, true, ask);
  }

  /** One more arm, and it fails. */
  lemma ArmFails(c: Check, v: Verify, i: nat, ask: nat, events: seq<DispatchEvent>, mid: nat, done: seq<Leaf>, reason: string, armEvents: seq<DispatchEvent>, ask': nat, leaves: seq<Leaf>)
    requires v.All? && i < |v.arms| && Passing(c, v, i, ask, events, mid, done)
    requires Judged(c, v.arms[i], mid, Some(reason), armEvents, ask', leaves)
    ensures Judged(c, v, ask, Some(ArmFailed(i, v.arms[i]) + reason), events + armEvents, ask', done + leaves)
  {
    hide LeavesOfAll, Leaves, Evaluated, TreeEvents, Asks, Reason, ArmFailed;
    var before, arm := LeavesOfAll(v.arms[..i]), Leaves(v.arms[i]);
    Sizes(c, before, done, true, ask);
    Sizes(c, arm, leaves, false, mid);
    var rest := RestOf(v, i);
    AsksJoin(c, before, arm, done, leaves, ask);
    EvaluatedArm(c, before, arm, done, leaves, false, ask);
    EvaluatedMore(c, before + arm, rest, done + leaves, ask);
    OnlyTheFirst(c, before + arm, rest, done + leaves, ask);
    ReasonJoins(c, v, i, done, leaves, rest, ask);
  }

  lemma OneMoreArm(v: Verify, i: nat)
    requires v.All? && i < |v.arms|
    ensures LeavesOfAll(v.arms[..i + 1]) == LeavesOfAll(v.arms[..i]) + Leaves(v.arms[i])
  {
    hide Leaves;
    assert v.arms[..i + 1][..i] == v.arms[..i];
  }

  lemma RestOf(v: Verify, i: nat) returns (rest: seq<Verify>)
    requires v.All? && i < |v.arms|
    ensures Leaves(v) == LeavesOfAll(v.arms[..i]) + Leaves(v.arms[i]) + rest
  {
    assert v.arms[..i + 1][..i] == v.arms[..i];
    assert Leaves(v) == LeavesOfAll(v.arms);
    LeavesPrefix(v.arms, i + 1);
    rest :| LeavesOfAll(v.arms) == LeavesOfAll(v.arms[..i + 1]) + rest;
  }

  lemma Sizes(c: Check, tree: seq<Verify>, leaves: seq<Leaf>, ok: bool, ask: nat)
    requires Evaluated(c, tree, leaves, ok, ask)
    ensures |leaves| <= |tree| && (ok ==> |leaves| == |tree|) && (!ok ==> leaves != [])
  {
    hide LeafAt, FailureAt;
  }

  lemma ReasonIs(c: Check, v: Verify, leaves: seq<Leaf>, ask: nat, way: string, why: string)
    requires 0 < |leaves| <= |Leaves(v)| && Path(v, |leaves| - 1) == way
    requires OrEmpty(FailureAt(c, Leaves(v), leaves, ask, |leaves| - 1)) == why
    ensures Reason(c, v, leaves, ask) == way + why
  {
    hide Path, FailureAt, Leaves;
  }

  lemma ReasonJoins(c: Check, v: Verify, i: nat, done: seq<Leaf>, leaves: seq<Leaf>, rest: seq<Verify>, ask: nat)
    requires v.All? && i < |v.arms|
    requires |done| == |LeavesOfAll(v.arms[..i])| && 0 < |leaves| <= |Leaves(v.arms[i])|
    requires Leaves(v) == LeavesOfAll(v.arms[..i]) + Leaves(v.arms[i]) + rest
    ensures Reason(c, v, done + leaves, ask)
         == ArmFailed(i, v.arms[i]) + Reason(c, v.arms[i], leaves, ask + Asks(c, LeavesOfAll(v.arms[..i]), done))
  {
    hide LeavesOfAll, Leaves, Path, ArmFailed, FailureAt, Asks;
    var before, arm := LeavesOfAll(v.arms[..i]), Leaves(v.arms[i]);
    var all := done + leaves;
    var from := ask + Asks(c, before, done);
    var way, why := Path(v.arms[i], |leaves| - 1), OrEmpty(FailureAt(c, arm, leaves, from, |leaves| - 1));
    PathThrough(v, i, |leaves| - 1);
    SameAt(c, before + arm, rest, all, ask, |all| - 1);
    JoinedAt(c, before, arm, done, leaves, ask, |all| - 1);
    hide Reason;
    ReasonIs(c, v, all, ask, ArmFailed(i, v.arms[i]) + way, why);
    ReasonIs(c, v.arms[i], leaves, from, way, why);
    assert (ArmFailed(i, v.arms[i]) + way) + why == ArmFailed(i, v.arms[i]) + (way + why);
  }

  // ----- The whole dispatch

  /** What a failed verification leaves behind: both the worker's claim and the reason. */
  function Rejected(state: NodeState, workerOutput: string, reason: string): NodeState {
    state.(status := Failed, output := Some(Truncated("worker: " + workerOutput + "\nverify: " + reason)))
  }

  /** The leaves a node is verified by. */
  function Tree(node: Node): seq<Verify> {
    match node.verify
    case None => []
    case Some(v) => Leaves(v)
  }

  /** The token captured before the work, for the verification commands. */
  function Token(node: Node, env: Env): Option<string> {
    match node.verifyPre
    case None => None
    case Some(cmd) => match env.pre(cmd) case Ok(t) => Some(t) case Err(_) => None
  }

  function CheckOf(node: Node, env: Env, allowPaid: bool, course: Course): Check {
    Check(node, env, allowPaid, OrEmpty(Worked(node, course).output), Token(node, env))
  }

  /** Without leaves nothing is done; a failed check turns the node's state into the rejected one. */
  method ApplyVerifyCheck(c: Check, state: NodeState, ask: nat)
    returns (state': NodeState, failed: bool, events: seq<DispatchEvent>, ask': nat, leaves: seq<Leaf>)
    requires state.status == Done
    ensures Evaluated(c, Tree(c.node), leaves, !failed, ask)
    ensures failed ==> c.node.verify.Some? && state' == Rejected(state, c.workerOutput, Reason(c, c.node.verify.value, leaves, ask))
    ensures !failed ==> state' == state
    ensures events == TreeEvents(c, Tree(c.node), leaves, ask) && ask' == ask + Asks(c, Tree(c.node), leaves)
    decreases if c.node.verify.None? then 0 else 2, 0
  {
    state', failed, events, ask', leaves := state, false, [], ask, [];
    NothingToCheck(c, [], true, ask);
    hide Evaluated, TreeEvents, Asks, Reason, Leaves, Truncated;
    assert c.node.verify.Some? ==> Tree(c.node) == Leaves(c.node.verify.value);
    if c.node.verify.Some? {
      var reason;
      reason, events, ask', leaves := EvalVerify(c, c.node.verify.value, ask);
      Sizes(c, Leaves(c.node.verify.value), leaves, reason.None?, ask);
      if reason.Some? {
        failed := true;
        state' := Rejected(state, c.workerOutput, reason.value);
      }
    }
  }

  function FirstModel(node: Node): Option<string> {
    if node.models == [] then None else Some(node.models[0].name)
  }

  /** What one dispatch hands back, given its course and the leaves evaluated. */
  ghost predicate Handed(node: Node, env: Env, allowPaid: bool, course: Course, leaves: seq<Leaf>, ask: nat, r: TaskResult, ask': nat) {
    var worked, c, from := Worked(node, course), CheckOf(node, env, allowPaid, course), ask + CourseOutputs(course);
    && r.taskModel == FirstModel(node) && r.attempt == CourseAttempt(course) && r.modelUsed == (if worked.status == Done then worked.model else None)
    && if worked.status == Done then
         && Evaluated(c, Tree(node), leaves, !r.verifyFailed, from)
         && (r.verifyFailed ==> node.verify.Some?)
         && r.state == (if r.verifyFailed then Rejected(worked, c.workerOutput, Reason(c, node.verify.value, leaves, from)) else worked)
         && r.events == CourseEvents(node, env, course, ask) + TreeEvents(c, Tree(node), leaves, from)
         && ask' == from + Asks(c, Tree(node), leaves)
       else
         && leaves == [] && !r.verifyFailed && r.state == worked
         && r.events == CourseEvents(node, env, course, ask) && ask' == from
  }

  /**
   One dispatch.  The node ends Done exactly when its course of calls ended in an accepted output and every
   leaf of its verification passed; the result is one the run loop accepts.
   */
  method DispatchNode(node: Node, env: Env, allowPaid: bool, ask: nat)
    returns (r: TaskResult, course: Course, ask': nat, leaves: seq<Leaf>)
    ensures r.Valid()
    ensures CourseOk(node, env, allowPaid, course) && Handed(node, env, allowPaid, course, leaves, ask, r, ask')
    decreases if node.verify.None? then 0 else 2, 1
  {
    hide TraceOk, CommandOk, Evaluated, Narrated, CommandEvents, LastFailureOf, LastFailure, Truncated, TreeEvents, Asks, Reason, Tree;
    ask', leaves := ask, [];
    if node.verifyPre.Some? {
      var pre := env.pre(node.verifyPre.value);
      if pre.Err? {
        course := PreFailed(pre.error);
        return TaskResult(FirstModel(node), 0, Worked(node, PreFailed(pre.error)), None, [], false), course, ask', leaves;
      }
    }
    var state, events, attempt, modelUsed := NodeState(Failed, None, 0, None), [], 0, None;
    if node.models == [] {
      if node.nodeType == Some("shell") {
        var replies, failure;
        replies, events, failure := RunCommand(node, env);
        course := Command(replies);
        state, attempt := CommandSettled(node, replies), |replies|;
      } else {
        course := NoModels;
        state := Worked(node, NoModels);
      }
    } else {
      var visits;
      visits, events := TryModels(node, env, allowPaid, ask);
      course := Models(visits);
      state, attempt := Settled(node, visits), AttemptsOf(visits);
      modelUsed := state.model;
      ask' := ask + TotalOutputs(visits);
    }
    var failed := false;
    if state.status == Done {
      var checks;
      state, failed, checks, ask', leaves := ApplyVerifyCheck(Check(node, env, allowPaid, OrEmpty(state.output), Token(node, env)), state, ask');
      events := events + checks;
    }
    r := TaskResult(FirstModel(node), attempt, state, modelUsed, events, failed);
  }

  /** Done if and only if the calls ended Done and the evaluation reached the end of the tree with every leaf passed. */
  lemma DoneMeansVerified(node: Node, env: Env, allowPaid: bool, course: Course, leaves: seq<Leaf>, ask: nat, r: TaskResult, ask': nat)
    requires Handed(node, env, allowPaid, course, leaves, ask, r, ask')
    ensures var c, from := CheckOf(node, env, allowPaid, course), ask + CourseOutputs(course);
      r.state.status == Done <==>
        && Worked(node, course).status == Done
        && |leaves| == |Tree(node)|
        && forall i | 0 <= i < |leaves| :: FailureAt(c, Tree(node), leaves, from, i) == None
  {
    hide FailureAt, LeafAt, TreeEvents, Asks, Reason, CourseEvents, Worked, Truncated, Tree;
  }

  /** A dispatch is determined: one result for one worker, one shell and one sequence of budget answers. */
  lemma DispatchIsDetermined(node: Node, env: Env, allowPaid: bool, ask: nat, a: Course, la: seq<Leaf>, ra: TaskResult, na: nat, b: Course, lb: seq<Leaf>, rb: TaskResult, nb: nat)
    requires CourseOk(node, env, allowPaid, a) && Handed(node, env, allowPaid, a, la, ask, ra, na)
    requires CourseOk(node, env, allowPaid, b) && Handed(node, env, allowPaid, b, lb, ask, rb, nb)
    ensures ra == rb && na == nb && a == b && la == lb
  {
    hide CourseOk, Evaluated, TreeEvents, Asks, Reason, CourseEvents, Worked, Truncated, Tree;
    CourseIsUnique(node, env, allowPaid, a, b);
    if Worked(node, a).status == Done {
      EvaluationIsUnique(CheckOf(node, env, allowPaid, a), Tree(node), la, !ra.verifyFailed, lb, !rb.verifyFailed, ask + CourseOutputs(a));
    }
  }
}
