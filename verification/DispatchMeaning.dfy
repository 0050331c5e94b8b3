/**
 What a dispatch hands back, told from the replies of its worker: whose text the output is, what the checks are
 shown, when a critic passes, and what is left of a failed verification.
 */
module DispatchMeaning {
  import opened Wrappers
  import opened Text
  import opened Pieces
  import opened Dag
  import opened Events
  import opened RetryLattice
  import opened Dispatch
  import opened Verdict
  import opened Template
  import TemplateExpand
  import opened Verification
  import opened PromptMeaning

  // ----- The replies of a course

  function AllReplies(visits: seq<Visit>): seq<Reply> {
    if visits == [] then [] else AllReplies(visits[..|visits| - 1]) + visits[|visits| - 1].replies
  }

  /** Every reply of the dispatch, in order. */
  function Replies(course: Course): seq<Reply> {
    match course
    case Command(replies) => replies
    case Models(visits) => AllReplies(visits)
    case _ => []
  }

  predicate IsFailure(r: Reply) {
    r.Output? && !r.success
  }

  /** `text` is that of the last unsuccessful output; none if there was no such output. */
  ghost predicate IsLastFailure(replies: seq<Reply>, text: Option<string>) {
    match text
    case None => forall i | 0 <= i < |replies| :: !IsFailure(replies[i])
    case Some(t) => exists i :: 0 <= i < |replies| && IsFailureAt(replies, i, t)
  }

  ghost predicate IsFailureAt(replies: seq<Reply>, i: nat, text: string) {
    i < |replies| && IsFailure(replies[i]) && replies[i].text == text && forall j | i < j < |replies| :: !IsFailure(replies[j])
  }

  lemma FailureSnoc(replies: seq<Reply>, r: Reply, before: Option<string>)
    requires IsLastFailure(replies, before)
    ensures IsLastFailure(replies + [r], if IsFailure(r) then Some(r.text) else before)
  {
    var all := replies + [r];
    if IsFailure(r) {
      assert IsFailureAt(all, |replies|, r.text);
    } else if before.Some? {
      var i :| 0 <= i < |replies| && IsFailureAt(replies, i, before.value);
      assert IsFailureAt(all, i, before.value);
    }
  }

  lemma {:induction false} FailuresJoin(front: seq<Reply>, replies: seq<Reply>, before: Option<string>)
    requires IsLastFailure(front, before)
    ensures IsLastFailure(front + replies, LastFailure(replies, before))
  {
    hide IsLastFailure;
    if replies == [] {
      assert front + replies == front;
    } else {
      var rest, r := replies[..|replies| - 1], replies[|replies| - 1];
      FailuresJoin(front, rest, before);
      FailureSnoc(front + rest, r, LastFailure(rest, before));
      assert front + replies == front + rest + [r];
    }
  }

  lemma {:induction false} FailureOfVisits(visits: seq<Visit>)
    ensures IsLastFailure(AllReplies(visits), LastFailureOf(visits))
  {
    hide LastFailure;
    if visits != [] {
      FailureOfVisits(visits[..|visits| - 1]);
      FailuresJoin(AllReplies(visits[..|visits| - 1]), visits[|visits| - 1].replies, LastFailureOf(visits[..|visits| - 1]));
    }
  }

  lemma FailureOfCommand(replies: seq<Reply>)
    ensures IsLastFailure(replies, LastFailure(replies, None))
  {
    FailuresJoin([], replies, None);
    assert [] + replies == replies;
  }

  // ----- Done, and Failed

  /** The replies of the last model tried, or of the command. */
  function LastReplies(course: Course): seq<Reply> {
    match course
    case Command(replies) => replies
    case Models(visits) => if visits == [] then [] else visits[|visits| - 1].replies
    case _ => []
  }

  function LastModel(course: Course): Option<string> {
    match course
    case Models(visits) => if visits == [] then None else Some(visits[|visits| - 1].model.name)
    case _ => None
  }

  function DeadlineText(id: Id, model: Option<string>, attempt: nat): string {
    if model.Some? then "node " + id + " model " + model.value + " attempt " + Decimal(attempt) + " timed out"
    else "node " + id + " attempt " + Decimal(attempt) + " timed out"
  }

  /** The state before verification is Done exactly with the text of the last reply, an accepted output. */
  lemma WorkedText(node: Node, env: Env, allowPaid: bool, course: Course)
    requires CourseOk(node, env, allowPaid, course)
    ensures var w, replies := Worked(node, course), LastReplies(course);
      && (w.status == Done || w.status == Failed)
      && (w.status == Done ==>
            && replies != [] && replies[|replies| - 1].Output? && replies[|replies| - 1].success
            && w == NodeState(Done, LastModel(course), |replies|, Some(replies[|replies| - 1].text)))
      && (w.status == Failed ==> w.model == None && w.attempts == 0)
      && (w.status == Failed && replies != [] && replies[|replies| - 1].TimedOut? ==>
            w.output == Some(DeadlineText(node.id, LastModel(course), |replies|)))
      && (w.status == Failed && (course.Models? || course.Command?) && !(replies != [] && replies[|replies| - 1].TimedOut?) ==>
            IsLastFailure(Replies(course), w.output))
  {
    hide TraceOk, CommandOk, Accepted, LastFailure, LastFailureOf, IsLastFailure, AllReplies;
    if course.Models? {
      FailureOfVisits(course.visits);
      AcceptedIs(node, course);
    } else if course.Command? {
      FailureOfCommand(course.replies);
    }
  }

  lemma AcceptedIs(node: Node, course: Course)
    ensures forall r :: Accepted(node, r) ==> r.Output? && r.success
  {
  }

  /** A Done node's output is the text of the last reply, the model that of the last visit, the attempts its replies. */
  lemma DoneText(node: Node, env: Env, allowPaid: bool, course: Course, leaves: seq<Leaf>, ask: nat, r: TaskResult, ask': nat)
    requires CourseOk(node, env, allowPaid, course) && Handed(node, env, allowPaid, course, leaves, ask, r, ask')
    requires r.state.status == Done
    ensures var replies := LastReplies(course);
      && replies != [] && replies[|replies| - 1].Output? && replies[|replies| - 1].success
      && r.state == NodeState(Done, LastModel(course), |replies|, Some(replies[|replies| - 1].text))
      && r.modelUsed == LastModel(course) && !r.verifyFailed && r.attempt == |replies|
  {
    hide CourseOk, Worked, Evaluated, TreeEvents, CourseEvents, Asks, Tree, Truncated, Reason, CheckOf;
    WorkedText(node, env, allowPaid, course);
  }

  /** What verification is given: the node as it is, the last reply's text, and the token printed before the work. */
  lemma CheckedText(node: Node, env: Env, allowPaid: bool, course: Course)
    requires CourseOk(node, env, allowPaid, course) && Worked(node, course).status == Done
    ensures var replies, c := LastReplies(course), CheckOf(node, env, allowPaid, course);
      && replies != [] && replies[|replies| - 1].Output?
      && c.node == node && c.env == env && c.allowPaid == allowPaid && c.workerOutput == replies[|replies| - 1].text
      && (node.verifyPre.None? ==> c.token == None)
      && (node.verifyPre.Some? ==> env.pre(node.verifyPre.value) == Ok(OrEmpty(c.token)) && c.token.Some?)
  {
    hide TraceOk, CommandOk, Worked;
    WorkedText(node, env, allowPaid, course);
    CourseNeedsToken(node, env, allowPaid, course);
  }

  lemma CourseNeedsToken(node: Node, env: Env, allowPaid: bool, course: Course)
    requires CourseOk(node, env, allowPaid, course) && Worked(node, course).status == Done
    ensures node.verifyPre.Some? ==> env.pre(node.verifyPre.value).Ok?
  {
    hide TraceOk, CommandOk;
  }

  /** A node that fails in its calls keeps the text of the last unsuccessful reply, over all models. */
  lemma FailedText(node: Node, env: Env, allowPaid: bool, course: Course, leaves: seq<Leaf>, ask: nat, r: TaskResult, ask': nat)
    requires CourseOk(node, env, allowPaid, course) && Handed(node, env, allowPaid, course, leaves, ask, r, ask')
    requires r.state.status == Failed && !r.verifyFailed
    ensures r.state.model == None && r.state.attempts == 0 && leaves == [] && r.modelUsed == None && r.attempt == |LastReplies(course)|
    ensures course.Models? || course.Command? ==>
      var replies := LastReplies(course);
      if replies != [] && replies[|replies| - 1].TimedOut? then
        r.state.output == Some(DeadlineText(node.id, LastModel(course), |replies|))
      else IsLastFailure(Replies(course), r.state.output)
    ensures course.PreFailed? ==> r.state.output == Some("verify_pre failed for node " + node.id + ": " + course.message)
    ensures course.NoModels? ==> r.state.output == Some("no models specified for LLM node")
  {
    hide CourseOk, Evaluated, TreeEvents, CourseEvents, Asks, Tree, Truncated, Reason, CheckOf, IsLastFailure, Settled, CommandSettled;
    WorkedText(node, env, allowPaid, course);
  }

  /** A dispatch is told under the first model listed, used or not, with the attempts made on the last one tried. */
  lemma StartIsTold(node: Node, env: Env, allowPaid: bool, course: Course, leaves: seq<Leaf>, ask: nat, r: TaskResult, ask': nat)
    requires Handed(node, env, allowPaid, course, leaves, ask, r, ask')
    ensures r.taskModel == (if node.models == [] then None else Some(node.models[0].name)) && r.attempt == |LastReplies(course)|
  {
    hide Worked, Evaluated, TreeEvents, CourseEvents, Asks, Tree, Truncated, Reason, CheckOf;
  }

  // ----- A failed verification

  /** The mark begins nowhere before the place where it is put. */
  lemma MarkIsFirst(text: string, reason: string)
    requires !Contains(text, VERIFY_MARK)
    ensures Find("worker: " + text + VERIFY_MARK + reason, VERIFY_MARK) == Some(8 + |text|)
  {
    var s := "worker: " + text + VERIFY_MARK + reason;
    assert s[8 + |text|..8 + |text| + |VERIFY_MARK|] == VERIFY_MARK;
    forall j: nat | j < 8 + |text|
      ensures !OccursAt(s, VERIFY_MARK, j)
    {
      MarkWithin(text, reason, j);
    }
    FindIs(s, VERIFY_MARK, 8 + |text|);
  }

  lemma MarkWithin(text: string, reason: string, j: nat)
    ensures j < 8 + |text| && OccursAt("worker: " + text + VERIFY_MARK + reason, VERIFY_MARK, j) ==> Contains(text, VERIFY_MARK)
  {
    var s := "worker: " + text + VERIFY_MARK + reason;
    var n := |VERIFY_MARK|;
    if j < 8 + |text| && OccursAt(s, VERIFY_MARK, j) {
      LineEndFirst(s, j, 8 + |text|);
      if 8 <= j {
        assert j + n <= 8 + |text| ==> text[j - 8..j - 8 + n] == s[j..j + n];
        assert j + n <= 8 + |text| ==> OccursAt(text, VERIFY_MARK, j - 8);
      }
    }
  }

  lemma MarkLetters(s: string, j: nat)
    requires OccursAt(s, VERIFY_MARK, j)
    ensures s[j] == '\n' && forall i | j < i < j + |VERIFY_MARK| :: s[i] != '\n'
  {
    var t := s[j..j + |VERIFY_MARK|];
    assert t == VERIFY_MARK;
    assert t[0] == '\n' && forall i | 0 < i < |VERIFY_MARK| :: t[i] != '\n';
    assert forall i | j < i < j + |VERIFY_MARK| :: s[i] == t[i - j];
  }

  /** The mark begins with a line end and holds no other. */
  lemma LineEndFirst(s: string, j: nat, k: nat)
    requires OccursAt(s, VERIFY_MARK, j) && j < k && OccursAt(s, VERIFY_MARK, k)
    ensures j + |VERIFY_MARK| <= k && s[j] == '\n'
  {
    MarkLetters(s, j);
    MarkLetters(s, k);
  }

  lemma PartsBack(text: string, reason: string)
    requires !Contains(text, VERIFY_MARK)
    ensures VerifyParts("worker: " + text + VERIFY_MARK + reason) == (text, reason)
  {
    hide Find;
    var s, k := "worker: " + text + VERIFY_MARK + reason, 8 + |text|;
    MarkIsFirst(text, reason);
    assert s[..k] == "worker: " + text && s[k + |VERIFY_MARK|..] == reason;
    assert (WORKER_MARK + text)[|WORKER_MARK|..] == text;
  }

  /** From the output of a failed verification the worker's text and the reason read back, if the text is unmarked and all fits. */
  lemma RejectedText(node: Node, env: Env, allowPaid: bool, course: Course, leaves: seq<Leaf>, ask: nat, r: TaskResult, ask': nat)
    requires CourseOk(node, env, allowPaid, course) && Handed(node, env, allowPaid, course, leaves, ask, r, ask')
    requires r.verifyFailed
    ensures var replies := LastReplies(course);
      && replies != [] && replies[|replies| - 1].Output? && r.state.status == Failed && r.state.output.Some?
      && r.state.model == r.modelUsed == LastModel(course) && r.state.attempts == r.attempt == |replies|
      && node.verify.Some? && 0 < |leaves| <= |Leaves(node.verify.value)|
      && var text, reason := replies[|replies| - 1].text, Reason(CheckOf(node, env, allowPaid, course), node.verify.value, leaves, ask + CourseOutputs(course));
        && (!Contains(text, VERIFY_MARK) && |text| + |reason| + 17 <= 8192 ==> VerifyParts(r.state.output.value) == (text, reason))
        && (|text| + |reason| + 17 > 8192 ==> ("worker: " + text + "\nverify: " + reason)[..8192] <= r.state.output.value)
  {
    hide CourseOk, Evaluated, TreeEvents, CourseEvents, Asks, Leaves, Contains, Reason, VerifyParts, Worked;
    WorkedText(node, env, allowPaid, course);
    var c, from := CheckOf(node, env, allowPaid, course), ask + CourseOutputs(course);
    Sizes(c, Tree(node), leaves, false, from);
    var replies := LastReplies(course);
    var text, reason := replies[|replies| - 1].text, Reason(c, node.verify.value, leaves, from);
    if !Contains(text, VERIFY_MARK) && |text| + |reason| + 17 <= 8192 {
      PartsBack(text, reason);
      assert "worker: " + text + "\nverify: " + reason == "worker: " + text + VERIFY_MARK + reason;
    }
  }

  // ----- Critics

  /** What a critic's placeholders stand for: its node's output, and nothing of any other node. */
  function JudgedFillings(c: Check, ids: seq<Id>): seq<string> {
    seq(|ids|, i requires 0 <= i < |ids| => Shown(if ids[i] == c.node.id then c.workerOutput else ""))
  }

  lemma CriticPrompt(c: Check, v: Verify, pieces: seq<string>, ids: seq<Id>)
    requires v.Critic?
    requires |pieces| == |ids| + 1 && Writable(ids) && Braceless(pieces) && v.prompt == Woven(pieces, Holes(ids))
    ensures CriticOf(c, v).prompt == Woven(pieces, JudgedFillings(c, ids))
  {
    hide Interpolate, Woven;
    InterpolatedPieces(pieces, ids, map[c.node.id := c.workerOutput]);
    assert Fillings(ids, map[c.node.id := c.workerOutput]) == JudgedFillings(c, ids);
  }

  /** Each call of a critic, with the node's own attempts and no text to be found in the reply. */
  ghost predicate CriticCalled(c: Check, models: seq<ModelRef>, prompt: string, visits: seq<Visit>) {
    && |visits| <= |Eligible(models, c.allowPaid)|
    && (forall k | 0 <= k < |visits| ::
          && visits[k].model == Eligible(models, c.allowPaid)[k]
          && |visits[k].replies| <= c.node.retry.attempts
          && forall j | 0 <= j < |visits[k].replies| ::
            visits[k].replies[j] == c.env.run(c.node.id + "::verify", prompt, visits[k].model.name, j + 1))
    && forall k, j | 0 <= k < |visits| && 0 <= j < |visits[k].replies| && visits[k].replies[j].Output? && visits[k].replies[j].success ::
         k == |visits| - 1 && j == |visits[k].replies| - 1
  }

  /** A call that is not the last was no success. */
  lemma EarlierCall(n: Node, env: Env, allowPaid: bool, visits: seq<Visit>, k: nat, j: nat)
    requires n.validate == None && TraceOk(n, env, allowPaid, visits) && k < |visits| && j < |visits[k].replies|
    ensures k < |visits| - 1 || j < |visits[k].replies| - 1 ==> !(visits[k].replies[j].Output? && visits[k].replies[j].success)
  {
    hide Eligible;
    assert VisitOk(n, env, visits[k]);
    if j < |visits[k].replies| - 1 {
      assert Retries(n, j + 1, visits[k].replies[j]);
    } else if k < |visits| - 1 {
      assert !Finished(n, visits[k]);
    }
  }

  lemma CriticTrace(c: Check, v: Verify, visits: seq<Visit>)
    requires v.Critic? && TraceOk(CriticOf(c, v), c.env, c.allowPaid, visits)
    ensures CriticCalled(c, v.models, CriticOf(c, v).prompt, visits)
  {
    hide Eligible, Finished, Retries;
    forall k, j | 0 <= k < |visits| && 0 <= j < |visits[k].replies|
      ensures k < |visits| - 1 || j < |visits[k].replies| - 1 ==> !(visits[k].replies[j].Output? && visits[k].replies[j].success)
    {
      EarlierCall(CriticOf(c, v), c.env, c.allowPaid, visits, k, j);
    }
  }

  /** A critic that was run is shown the output it judges, and only with the models and attempts it may use. */
  lemma CriticIsShown(c: Check, tree: seq<Verify>, leaves: seq<Leaf>, ok: bool, ask: nat, i: nat, visits: seq<Visit>, pieces: seq<string>, ids: seq<Id>)
    requires Evaluated(c, tree, leaves, ok, ask) && i < |leaves| && tree[i].Critic? && leaves[i] == CriticRan(Models(visits))
    requires |pieces| == |ids| + 1 && Writable(ids) && Braceless(pieces) && tree[i].prompt == Woven(pieces, Holes(ids))
    ensures CriticCalled(c, tree[i].models, Woven(pieces, JudgedFillings(c, ids)), visits)
  {
    hide TraceOk, Woven, FailureAt, Asks, Interpolate, Eligible;
    assert LeafAt(c, tree, leaves, ask, i);
    CriticPrompt(c, tree[i], pieces, ids);
    CriticTrace(c, tree[i], visits);
  }

  /** For every prompt, by the template it is written from. */
  lemma CriticTemplate(c: Check, tree: seq<Verify>, leaves: seq<Leaf>, ok: bool, ask: nat, i: nat, visits: seq<Visit>, t: Template)
    requires Evaluated(c, tree, leaves, ok, ask) && i < |leaves| && tree[i].Critic? && leaves[i] == CriticRan(Models(visits))
    requires TemplateExpand.Stable(t) && Unparse(t) == tree[i].prompt
    ensures CriticCalled(c, tree[i].models, Render(t, map[c.node.id := c.workerOutput]), visits)
  {
    hide TraceOk, FailureAt, Asks, Render, Eligible, TemplateExpand.Stable;
    assert LeafAt(c, tree, leaves, ask, i);
    TemplateExpand.ParseUnparse(t);
    CriticTrace(c, tree[i], visits);
  }

  /** The critic's answer: its last call was a success, and the text reads PASS behind blanks and as a word. */
  ghost predicate SaysPass(leaf: Leaf) {
    && leaf.CriticRan? && leaf.course.Models? && LastReplies(leaf.course) != []
    && var r := LastReplies(leaf.course)[|LastReplies(leaf.course)| - 1];
      r.Output? && r.success && exists k: nat :: PassAt(r.text, k)
  }

  lemma CriticNodePlain(c: Check, v: Verify)
    requires v.Critic?
    ensures var n := CriticOf(c, v); n.validate == None && n.nodeType == None && n.verify == None && n.verifyPre == None && n.models == v.models
  {
  }

  /** The worker's text decides: an accepted reply of a node without `validate` is any successful one. */
  lemma CriticWorked(n: Node, env: Env, allowPaid: bool, course: Course)
    requires n.validate == None && n.nodeType == None && n.verifyPre == None && CourseOk(n, env, allowPaid, course)
    ensures Worked(n, course).status == Done <==>
      && course.Models? && LastReplies(course) != []
      && LastReplies(course)[|LastReplies(course)| - 1].Output? && LastReplies(course)[|LastReplies(course)| - 1].success
  {
    hide TraceOk, LastFailureOf;
  }

  /**
   When a leaf passes: a command, when the shell has nothing to say to it, given the token; a critic, when it was
   run, its last call succeeded and the reply says so.  Whatever else befalls a critic, it does not pass.
   */
  lemma LeafPassesIff(c: Check, tree: seq<Verify>, leaves: seq<Leaf>, ok: bool, ask: nat, i: nat)
    requires Evaluated(c, tree, leaves, ok, ask) && i < |leaves|
    ensures tree[i].Shell? ==> FailureAt(c, tree, leaves, ask, i) == c.env.shell(tree[i].cmd, c.token)
    ensures tree[i].Critic? ==> (FailureAt(c, tree, leaves, ask, i) == None <==> SaysPass(leaves[i]))
    ensures tree[i].Shell? || tree[i].Critic?
  {
    hide CourseOk, Asks, Interpolate, Eligible, VerdictOf, Worked, PassAt;
    assert LeafAt(c, tree, leaves, ask, i);
    var v, leaf := tree[i], leaves[i];
    if v.Critic? && leaf.CriticRan? {
      var n := CriticOf(c, v);
      CriticNodePlain(c, v);
      CriticWorked(n, c.env, c.allowPaid, leaf.course);
      WorkedText(n, c.env, c.allowPaid, leaf.course);
      PassesOnlyOnLeadingPass(OrEmpty(Worked(n, leaf.course).output));
    }
  }

  /** Why a critic that answered did not pass: the reason in its reply. */
  lemma CriticSays(c: Check, tree: seq<Verify>, leaves: seq<Leaf>, ok: bool, ask: nat, i: nat, sep: string, text: string)
    requires Evaluated(c, tree, leaves, ok, ask) && i < |leaves| && tree[i].Critic? && leaves[i].CriticRan?
    requires leaves[i].course.Models? && LastReplies(leaves[i].course) != []
    requires var r := LastReplies(leaves[i].course)[|LastReplies(leaves[i].course)| - 1]; r.Output? && r.success && r.text == "FAIL" + sep + text
    requires sep != "" && forall k | k in sep :: IsSeparator(k)
    requires text != "" && !IsSeparator(text[0]) && !IsSpace(text[|text| - 1])
    ensures FailureAt(c, tree, leaves, ask, i) == Some(text)
  {
    hide CourseOk, Asks, Interpolate, Eligible, VerdictOf, Worked;
    assert LeafAt(c, tree, leaves, ask, i);
    var n := CriticOf(c, tree[i]);
    CriticNodePlain(c, tree[i]);
    CriticWorked(n, c.env, c.allowPaid, leaves[i].course);
    WorkedText(n, c.env, c.allowPaid, leaves[i].course);
    ReasonRead(false, sep, text);
  }
}
