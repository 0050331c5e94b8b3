/** Which counters a restart will find: those of the task joined last, which need not be the latest. */
module CounterOrder {
  import opened Wrappers
  import opened Dag
  import opened Events
  import opened Vault
  import opened Loop
  import opened Ledgers = Budget
  import opened Announcements
  import StoredLog

  function LastSpent(notes: seq<Note>): Option<Counters> {
    if notes == [] then None
    else
      match notes[|notes| - 1]
      case Spent(calls, tokens) => Some(Counters(calls, tokens))
      case _ => LastSpent(notes[..|notes| - 1])
  }

  lemma {:induction false} SpentJoins(a: seq<Note>, b: seq<Note>)
    ensures LastSpent(a + b) == if LastSpent(b).Some? then LastSpent(b) else LastSpent(a)
  {
    if b == [] {
      assert a + b == a;
    } else {
      assert (a + b)[..|a + b| - 1] == a + b[..|b| - 1];
      SpentJoins(a, b[..|b| - 1]);
    }
  }

  lemma {:induction false} CountersAreNotes(log: seq<Event>)
    ensures StoredLog.LastCounters(log) == LastSpent(NotesIn(log))
  {
    if log != [] {
      var front, e := log[..|log| - 1], log[|log| - 1];
      CountersAreNotes(front);
      assert log == front + [e];
      OneMore(front, e);
      var more := match e
        case NodeDispatched(id, model, attempt) => [Started(id, model, attempt)]
        case NodeRetry(id, _) => [Repeated(id)]
        case ProviderFallback(id, f, t) => [Switched(id, f, t)]
        case BudgetUpdated(calls, tokens) => [Spent(calls, tokens)]
        case _ => [];
      SpentJoins(NotesIn(front), more);
      assert more[..0] == [];
    }
  }

  /** Whatever was stored before, the counters stored last are those the task joined last reports, if it reports any. */
  lemma JoinedCounters(nodes: seq<Node>, s: State, id: Id, r: TaskResult)
    requires Once(s)
    ensures var reported := LastSpent(NotesOf(id, r.events));
      StoredLog.LastCounters(Join(nodes, s, id, r).log) == if reported.Some? then reported else StoredLog.LastCounters(s.log)
  {
    hide NotesIn, Breaches, Join, LastSpent, NotesOf, StoredLog.LastCounters;
    JoinNotes(nodes, s, id, r);
    CountersAreNotes(s.log);
    CountersAreNotes(Join(nodes, s, id, r).log);
    StartSpendsNothing(id, OrEmpty(r.taskModel), r.attempt);
    SpentJoins([Started(id, OrEmpty(r.taskModel), r.attempt)], NotesOf(id, r.events));
    SpentJoins(NotesIn(s.log), TaskNotes(id, r));
  }

  lemma StartSpendsNothing(id: Id, model: string, attempt: nat)
    ensures LastSpent([Started(id, model, attempt)]) == None
  {
    assert [Started(id, model, attempt)][..0] == [];
  }

  lemma OneUpdate(id: Id, events: seq<DispatchEvent>, c: Counters)
    requires events == [CountersUpdated(c.modelCalls, c.totalTokens)] || exists m :: events == [CountersUpdated(c.modelCalls, c.totalTokens), CeilingTripped(m)]
    ensures LastSpent(NotesOf(id, events)) == Some(c)
  {
    assert NotesOf(id, events[1..]) == [];
    assert NotesOf(id, events) == [Spent(c.modelCalls, c.totalTokens)];
  }

  /** Two calls, `a`'s recorded before `b`'s. */
  function TwoCalls(a: Id, b: Id, m: nat, n: nat): seq<Ledgers.Step> {
    [Claim(a), Claim(b), Ledgers.Step.Output(0, a, Some(m)), Ledgers.Step.Output(1, b, Some(n))]
  }

  lemma TwoCallsPlay(limits: Limits, a: Id, b: Id, m: nat, n: nat)
    requires limits.maxCalls.None? && limits.maxTokens.Some? && m <= limits.maxTokens.value < m + n
    ensures var start := Opening(Counters(0, 0), limits);
      && Play(start, TwoCalls(a, b, m, n)[..3]).budget.counters == Counters(2, m)
      && Play(start, TwoCalls(a, b, m, n)[..3]).budget.breach == None
      && Play(start, TwoCalls(a, b, m, n)).budget.counters == Counters(2, m + n)
      && Play(start, TwoCalls(a, b, m, n)).budget.breach.Some?
  {
    hide Reached, MissingUsage, OnResume;
    var start, steps := Opening(Counters(0, 0), limits), TwoCalls(a, b, m, n);
    assert steps[..3][..2] == steps[..2] && steps[..2][..1] == steps[..1] && steps[..1][..0] == [];
    assert Play(start, steps[..1]) == Apply(start, Claim(a));
    assert Play(start, steps[..2]) == Apply(Play(start, steps[..1]), Claim(b));
    assert Play(start, steps[..3]) == Apply(Play(start, steps[..2]), Ledgers.Step.Output(0, a, Some(m)));
    assert Play(start, steps) == Apply(Play(start, steps[..3]), Ledgers.Step.Output(1, b, Some(n)));
  }

  /**
   The stored counters can fall behind: `a`'s call is recorded before `b`'s, which breaches the ceiling, but `b` is
   joined first.  The counters stored last are `a`'s, and a restart with the same ceiling begins without a breach.
   */
  lemma CountersFallBehind(nodes: seq<Node>, s: State, a: Id, ra: TaskResult, b: Id, rb: TaskResult, limits: Limits, m: nat, n: nat, message: string)
    requires Once(s) && limits.maxCalls.None? && limits.maxTokens.Some? && m <= limits.maxTokens.value < m + n
    requires ra.events == [CountersUpdated(2, m)] && rb.events == [CountersUpdated(2, m + n), CeilingTripped(message)]
    ensures var start, steps := Opening(Counters(0, 0), limits), TwoCalls(a, b, m, n);
      var stored := StoredLog.LastCounters(Join(nodes, Join(nodes, s, b, rb), a, ra).log);
      && Play(start, steps[..3]).budget.counters == Counters(2, m) && Play(start, steps).budget.counters == Counters(2, m + n)
      && Play(start, steps).budget.breach.Some?
      && stored == Some(Counters(2, m)) && Fresh(stored.value, limits).breach == None
  {
    hide Join, NotesOf, LastSpent, StoredLog.LastCounters, Play, Reached, OnResume;
    TwoCallsPlay(limits, a, b, m, n);
    JoinNotes(nodes, s, b, rb);
    JoinedCounters(nodes, Join(nodes, s, b, rb), a, ra);
    OneUpdate(a, ra.events, Counters(2, m));
  }
}
