/**
 The pool of worker processes as a protocol.  A session moves from phase to phase; each step is what
 happens between two points where it waits, and steps of different sessions interleave freely.
 */
module ClientPool {

  type Client = nat
  type Session = nat

  datatype Phase =
    | Acquiring                              // has its permit, looks for a client
    | Checking(client: Client)               // took one from the pool, asks whether it still answers
    | Creating                               // found the pool empty, starts a process
    | Resetting(client: Client)              // a reused client is told to start a new conversation
    | Initializing(client: Client)
    | Open(client: Client, poisoned: bool)
    | Returning(client: Client)              // closing: asks whether the client still answers
    | Closed                                 // the client is gone, the permit still held

  /** `talk` is the session whose prompts a client's conversation holds, if any. */
  datatype State = State(
    concurrency: nat,
    pool: seq<Client>,
    sessions: map<Session, Phase>,
    talk: map<Client, TalkOf>,
    started: nat)

  datatype TalkOf = Nobody | Of(session: Session)

  datatype Step =
    | Acquire
    | Take(session: Session)
    | Checked(session: Session, healthy: bool)
    | Created(session: Session, ok: bool)
    | Reset(session: Session, ok: bool)
    | Initialized(session: Session, ok: bool)
    | Prompt(session: Session, ok: bool)
    | Close(session: Session)
    | Returned(session: Session, healthy: bool)
    | Release(session: Session)
    | Abandon(session: Session)

  predicate In(s: State, x: Session) {
    x in s.sessions
  }

  /** A permit is free while fewer sessions than `concurrency` hold one. */
  predicate Enabled(s: State, a: Step) {
    match a
    case Acquire => |s.sessions| < s.concurrency
    case Take(x) => In(s, x) && s.sessions[x].Acquiring?
    case Checked(x, _) => In(s, x) && s.sessions[x].Checking?
    case Created(x, _) => In(s, x) && s.sessions[x].Creating?
    case Reset(x, _) => In(s, x) && s.sessions[x].Resetting?
    case Initialized(x, _) => In(s, x) && s.sessions[x].Initializing?
    case Prompt(x, _) => In(s, x) && s.sessions[x].Open?
    case Close(x) => In(s, x) && s.sessions[x].Open?
    case Returned(x, _) => In(s, x) && s.sessions[x].Returning?
    case Release(x) => In(s, x) && s.sessions[x].Closed?
    case Abandon(x) => In(s, x)
  }

  function To(s: State, x: Session, p: Phase): State {
    s.(sessions := s.sessions[x := p])
  }

  /** The session is over: its client, if it still has one, and its permit are dropped. */
  function End(s: State, x: Session): State {
    s.(sessions := s.sessions - {x})
  }

  /** A process that has not been seen before. */
  function NewClient(s: State): Client {
    s.started
  }

  function Next(s: State, a: Step): State
    requires Enabled(s, a)
  {
    match a
    case Acquire => To(s, s.started, Acquiring).(started := s.started + 1)
    case Take(x) =>
      if s.pool != [] then To(s, x, Checking(s.pool[0])).(pool := s.pool[1..]) else To(s, x, Creating)
    case Checked(x, healthy) =>
      if healthy then To(s, x, Resetting(s.sessions[x].client)) else To(s, x, Acquiring)
    case Created(x, ok) =>
      if ok then To(s, x, Initializing(NewClient(s))).(talk := s.talk[NewClient(s) := Nobody], started := s.started + 1) else End(s, x)
    case Reset(x, ok) =>
      if ok then To(s, x, Initializing(s.sessions[x].client)).(talk := s.talk[s.sessions[x].client := Nobody]) else End(s, x)
    case Initialized(x, ok) =>
      if ok then To(s, x, Open(s.sessions[x].client, false)) else End(s, x)
    case Prompt(x, ok) =>
      To(s, x, Open(s.sessions[x].client, s.sessions[x].poisoned || !ok)).(talk := s.talk[s.sessions[x].client := Of(x)])
    case Close(x) =>
      if s.sessions[x].poisoned then To(s, x, Closed) else To(s, x, Returning(s.sessions[x].client))
    case Returned(x, healthy) =>
      if healthy then To(s, x, Closed).(pool := s.pool + [s.sessions[x].client]) else To(s, x, Closed)
    case Release(x) => End(s, x)
    case Abandon(x) => End(s, x)
  }

  ghost predicate IsRun(s: State, steps: seq<Step>)
    decreases |steps|
  {
    steps != [] ==> Enabled(s, steps[0]) && IsRun(Next(s, steps[0]), steps[1..])
  }

  ghost function After(s: State, steps: seq<Step>): State
    requires IsRun(s, steps)
    decreases |steps|
  {
    if steps == [] then s else After(Next(s, steps[0]), steps[1..])
  }

  function Idle(concurrency: nat): State {
    State(concurrency, [], map[], map[], 0)
  }

  // ----- The invariant

  /** The session holds a client or is starting one. */
  predicate HasClient(p: Phase) {
    !p.Acquiring? && !p.Closed?
  }

  predicate Holds(p: Phase, c: Client) {
    HasClient(p) && !p.Creating? && p.client == c
  }

  function Busy(s: State): set<Session> {
    set x | x in s.sessions && HasClient(s.sessions[x])
  }

  /** Processes in the pool, in a session's hands, or being started. */
  function Clients(s: State): nat {
    |s.pool| + |Busy(s)|
  }

  ghost predicate NoDup(s: seq<Client>) {
    forall i, j | 0 <= i < j < |s| :: s[i] != s[j]
  }

  /** No client is in two places. */
  ghost predicate OnePlace(s: State) {
    && NoDup(s.pool)
    && (forall x, c: Client | x in s.sessions && Holds(s.sessions[x], c) :: c !in s.pool)
    && (forall x, y, c: Client | x in s.sessions && y in s.sessions && Holds(s.sessions[x], c) && Holds(s.sessions[y], c) :: x == y)
  }

  /** A client in use holds no other session's prompts. */
  ghost predicate CleanTalk(s: State) {
    && (forall x | x in s.sessions && s.sessions[x].Initializing? :: s.sessions[x].client in s.talk && s.talk[s.sessions[x].client] == Nobody)
    && (forall x | x in s.sessions && s.sessions[x].Open? ::
          s.sessions[x].client in s.talk && s.talk[s.sessions[x].client] in {Nobody, Of(x)})
  }

  ghost predicate Known(s: State) {
    && (forall c | c in s.pool :: c < s.started)
    && (forall x | x in s.sessions :: x < s.started)
    && (forall x, c: Client | x in s.sessions && Holds(s.sessions[x], c) :: c < s.started)
  }

  ghost predicate Inv(s: State) {
    && |s.sessions| <= s.concurrency && Clients(s) <= s.concurrency
    && OnePlace(s) && CleanTalk(s) && Known(s)
  }

  // ----- Counting

  lemma BusyAt(s: State, x: Session, p: Phase)
    ensures Busy(To(s, x, p)) == if HasClient(p) then Busy(s) + {x} else Busy(s) - {x}
    ensures Busy(End(s, x)) == Busy(s) - {x}
    ensures (s.sessions[x := p]).Keys == s.sessions.Keys + {x} && (s.sessions - {x}).Keys == s.sessions.Keys - {x}
  {
  }

  lemma {:induction false} FewerInside(a: set<Session>, b: set<Session>)
    requires a <= b
    ensures |a| <= |b|
  {
    if a != {} {
      var x :| x in a;
      FewerInside(a - {x}, b - {x});
    }
  }

  lemma SizeOf(m: map<Session, Phase>)
    ensures |m| == |m.Keys|
  {
  }

  /** With an empty pool, a session without a client leaves room for one. */
  lemma RoomForOne(s: State, x: Session)
    requires Inv(s) && x in s.sessions && !HasClient(s.sessions[x])
    ensures |Busy(s)| < s.concurrency && x !in Busy(s)
  {
    FewerInside(Busy(s) + {x}, s.sessions.Keys);
    SizeOf(s.sessions);
  }

  /** A session that changes its phase, and does not begin to hold a client. */
  lemma MoveCount(s: State, x: Session, p: Phase)
    requires x in s.sessions && (HasClient(p) ==> HasClient(s.sessions[x]))
    ensures |To(s, x, p).sessions| == |s.sessions| && |End(s, x).sessions| <= |s.sessions|
    ensures |Busy(To(s, x, p))| == |Busy(s)| - (if HasClient(s.sessions[x]) && !HasClient(p) then 1 else 0)
    ensures |Busy(End(s, x))| <= |Busy(s)|
  {
    hide Busy;
    BusyAt(s, x, p);
    InBusy(s, x);
    SizeOf(s.sessions);
    SizeOf(s.sessions[x := p]);
    SizeOf(s.sessions - {x});
  }

  lemma AcquireCount(s: State)
    requires Inv(s) && |s.sessions| < s.concurrency
    ensures |To(s, s.started, Acquiring).sessions| <= s.concurrency && Busy(To(s, s.started, Acquiring)) == Busy(s)
  {
    hide OnePlace, CleanTalk;
    BusyAt(s, s.started, Acquiring);
    NewSession(s);
    SizeOf(s.sessions);
    SizeOf(s.sessions[s.started := Acquiring]);
  }

  lemma TakeCount(s: State, x: Session, p: Phase)
    requires Inv(s) && x in s.sessions && !HasClient(s.sessions[x]) && HasClient(p)
    ensures |To(s, x, p).sessions| == |s.sessions|
    ensures |Busy(To(s, x, p))| == |Busy(s)| + 1 <= s.concurrency
  {
    hide Busy, OnePlace, CleanTalk, Known;
    BusyAt(s, x, p);
    RoomForOne(s, x);
    InBusy(s, x);
    SizeOf(s.sessions);
    SizeOf(s.sessions[x := p]);
  }

  lemma SameSessions(s: State, t: State)
    requires s.sessions == t.sessions
    ensures Busy(s) == Busy(t)
  {
  }

  lemma CountStep(s: State, a: Step)
    requires Inv(s) && Enabled(s, a)
    ensures |Next(s, a).sessions| <= s.concurrency && Clients(Next(s, a)) <= s.concurrency
    ensures Next(s, a).concurrency == s.concurrency
  {
    hide OnePlace, CleanTalk, Known, Busy;
    match a {
      case Acquire =>
        AcquireCount(s);
        SameSessions(To(s, s.started, Acquiring), Next(s, a));
      case Take(x) =>
        var p := if s.pool != [] then Checking(s.pool[0]) else Creating;
        TakeCount(s, x, p);
        SameSessions(To(s, x, p), Next(s, a));
      case Returned(x, healthy) =>
        MoveCount(s, x, Closed);
        SameSessions(To(s, x, Closed), Next(s, a));
      case _ =>
        CountMove(s, a);
    }
  }

  /** The steps that leave the pool alone and give nobody a client. */
  lemma CountMove(s: State, a: Step)
    requires Inv(s) && Enabled(s, a) && !a.Acquire? && !a.Take? && !a.Returned?
    ensures |Next(s, a).sessions| <= s.concurrency && Clients(Next(s, a)) <= s.concurrency
  {
    hide OnePlace, CleanTalk, Known, Busy, Clients, Inv;
    match a
    case Release(x) => MoveOrEnd(s, a, x, Closed);
    case Abandon(x) => MoveOrEnd(s, a, x, Closed);
    case Created(x, ok) => MoveOrEnd(s, a, x, Initializing(NewClient(s)));
    case Reset(x, ok) => MoveOrEnd(s, a, x, Initializing(s.sessions[x].client));
    case Initialized(x, ok) => MoveOrEnd(s, a, x, Open(s.sessions[x].client, false));
    case Checked(x, healthy) => MoveOrEnd(s, a, x, if healthy then Resetting(s.sessions[x].client) else Acquiring);
    case Close(x) => MoveOrEnd(s, a, x, if s.sessions[x].poisoned then Closed else Returning(s.sessions[x].client));
    case Prompt(x, ok) => MoveOrEnd(s, a, x, Open(s.sessions[x].client, s.sessions[x].poisoned || !ok));
  }

  lemma MoveOrEnd(s: State, a: Step, x: Session, p: Phase)
    requires Inv(s) && Enabled(s, a) && x in s.sessions && (HasClient(p) ==> HasClient(s.sessions[x]))
    requires Next(s, a).sessions == To(s, x, p).sessions || Next(s, a).sessions == End(s, x).sessions
    requires Next(s, a).pool == s.pool
    ensures |Next(s, a).sessions| <= s.concurrency && Clients(Next(s, a)) <= s.concurrency
  {
    hide OnePlace, CleanTalk, Known, Busy, Next;
    MoveCount(s, x, p);
    if Next(s, a).sessions == To(s, x, p).sessions {
      SameSessions(To(s, x, p), Next(s, a));
    } else {
      SameSessions(End(s, x), Next(s, a));
    }
  }

  lemma NewSession(s: State)
    requires Inv(s)
    ensures s.started !in s.sessions && s.started !in Busy(s)
  {
  }

  lemma InBusy(s: State, x: Session)
    requires x in s.sessions
    ensures x in Busy(s) <==> HasClient(s.sessions[x])
    ensures s.sessions.Keys + {x} == s.sessions.Keys
    ensures x in Busy(s) ==> Busy(s) + {x} == Busy(s) && |Busy(s) - {x}| == |Busy(s)| - 1
    ensures |Busy(s) - {x}| <= |Busy(s)| && |s.sessions.Keys - {x}| <= |s.sessions.Keys|
  {
    if x in Busy(s) {
      assert Busy(s) == Busy(s) - {x} + {x};
    } else {
      assert Busy(s) - {x} == Busy(s);
    }
    assert s.sessions.Keys == s.sessions.Keys - {x} + {x};
  }

  // ----- Places and conversations

  /** A session in a phase that holds no client but the one it held. */
  lemma MovePlaces(s: State, x: Session, p: Phase)
    requires Inv(s) && x in s.sessions
    requires forall c: Client | Holds(p, c) :: Holds(s.sessions[x], c)
    requires p.Initializing? ==> p.client in s.talk && s.talk[p.client] == Nobody
    requires p.Open? ==> p.client in s.talk && s.talk[p.client] in {Nobody, Of(x)}
    ensures OnePlace(To(s, x, p)) && CleanTalk(To(s, x, p)) && Known(To(s, x, p))
  {
  }

  lemma EndPlaces(s: State, x: Session)
    requires Inv(s)
    ensures OnePlace(End(s, x)) && CleanTalk(End(s, x)) && Known(End(s, x))
  {
  }

  lemma TakePlaces(s: State, x: Session)
    requires Inv(s) && Enabled(s, Take(x))
    ensures var s' := Next(s, Take(x));
      OnePlace(s') && CleanTalk(s') && Known(s')
  {
    hide OnePlace, CleanTalk, Known, Clients;
    if s.pool == [] {
      MovePlaces(s, x, Creating);
    } else {
      PoppedPlaces(s, x);
    }
  }

  lemma PoppedPlaces(s: State, x: Session)
    requires Inv(s) && x in s.sessions && s.pool != []
    ensures var s' := To(s, x, Checking(s.pool[0])).(pool := s.pool[1..]);
      OnePlace(s') && CleanTalk(s') && Known(s')
  {
    PoppedIsOut(s.pool);
  }

  lemma PoppedIsOut(pool: seq<Client>)
    requires NoDup(pool) && pool != []
    ensures NoDup(pool[1..]) && pool[0] in pool && pool[0] !in pool[1..]
    ensures forall c | c in pool[1..] :: c in pool
  {
  }

  lemma CreatedPlaces(s: State, x: Session)
    requires Inv(s) && Enabled(s, Created(x, true))
    ensures var s' := Next(s, Created(x, true));
      OnePlace(s') && CleanTalk(s') && Known(s')
  {
  }

  /** A conversation changes hands only with the client. */
  lemma TalkPlaces(s: State, x: Session, p: Phase, of: TalkOf)
    requires Inv(s) && x in s.sessions && !p.Creating? && HasClient(p) && Holds(s.sessions[x], p.client)
    requires (p.Initializing? ==> of == Nobody) && (p.Open? ==> of in {Nobody, Of(x)})
    ensures var s' := To(s, x, p).(talk := s.talk[p.client := of]);
      OnePlace(s') && CleanTalk(s') && Known(s')
  {
  }

  lemma ReturnPlaces(s: State, x: Session)
    requires Inv(s) && Enabled(s, Returned(x, true))
    ensures var s' := Next(s, Returned(x, true));
      OnePlace(s') && CleanTalk(s') && Known(s')
  {
    var c := s.sessions[x].client;
    assert Holds(s.sessions[x], c);
    assert c !in s.pool;
  }

  lemma AcquirePlaces(s: State)
    requires Inv(s)
    ensures var s' := To(s, s.started, Acquiring).(started := s.started + 1);
      OnePlace(s') && CleanTalk(s') && Known(s')
  {
  }

  lemma PlacesStep(s: State, a: Step)
    requires Inv(s) && Enabled(s, a)
    ensures OnePlace(Next(s, a)) && CleanTalk(Next(s, a)) && Known(Next(s, a))
  {
    hide OnePlace, Known, Clients;
    match a
    case Acquire => AcquirePlaces(s);
    case Take(x) => TakePlaces(s, x);
    case Created(x, ok) =>
      if ok {
        CreatedPlaces(s, x);
      } else {
        EndPlaces(s, x);
      }
    case Reset(x, ok) =>
      if ok {
        TalkPlaces(s, x, Initializing(s.sessions[x].client), Nobody);
      } else {
        EndPlaces(s, x);
      }
    case Initialized(x, ok) =>
      if ok {
        MovePlaces(s, x, Open(s.sessions[x].client, false));
      } else {
        EndPlaces(s, x);
      }
    case Prompt(x, ok) => TalkPlaces(s, x, Open(s.sessions[x].client, s.sessions[x].poisoned || !ok), Of(x));
    case Checked(x, healthy) => MovePlaces(s, x, if healthy then Resetting(s.sessions[x].client) else Acquiring);
    case Close(x) => MovePlaces(s, x, if s.sessions[x].poisoned then Closed else Returning(s.sessions[x].client));
    case Returned(x, healthy) =>
      if healthy {
        ReturnPlaces(s, x);
      } else {
        MovePlaces(s, x, Closed);
      }
    case Release(x) => EndPlaces(s, x);
    case Abandon(x) => EndPlaces(s, x);
  }

  // ----- Every interleaving

  lemma {:induction false} RunKeeps(s: State, steps: seq<Step>)
    requires Inv(s) && IsRun(s, steps)
    ensures Inv(After(s, steps)) && After(s, steps).concurrency == s.concurrency
    decreases |steps|
  {
    hide OnePlace, CleanTalk, Known, Clients, Next, Enabled;
    if steps != [] {
      CountStep(s, steps[0]);
      PlacesStep(s, steps[0]);
      RunKeeps(Next(s, steps[0]), steps[1..]);
    }
  }

  ghost predicate Reachable(concurrency: nat, s: State) {
    exists steps: seq<Step> :: IsRun(Idle(concurrency), steps) && s == After(Idle(concurrency), steps)
  }

  lemma ReachableInv(concurrency: nat, s: State)
    requires Reachable(concurrency, s)
    ensures Inv(s) && s.concurrency == concurrency
  {
    hide Next, Enabled;
    var steps: seq<Step> :| IsRun(Idle(concurrency), steps) && s == After(Idle(concurrency), steps);
    RunKeeps(Idle(concurrency), steps);
  }

  /**
   In every interleaving: pooled processes and those in use or being started never exceed `concurrency`,
   and no process is in two places.
   */
  lemma PoolIsBounded(concurrency: nat, s: State)
    requires Reachable(concurrency, s)
    ensures Clients(s) <= concurrency && OnePlace(s)
  {
    hide Reachable;
    ReachableInv(concurrency, s);
  }

  /** A prompt meets an empty conversation, or the session's own: a reused client is reset before. */
  lemma NoSharedContext(concurrency: nat, s: State, x: Session, ok: bool)
    requires Reachable(concurrency, s) && Enabled(s, Prompt(x, ok))
    ensures s.sessions[x].client in s.talk
    ensures s.talk[s.sessions[x].client] == Nobody || s.talk[s.sessions[x].client] == Of(x)
  {
    hide Reachable, OnePlace, Known;
    ReachableInv(concurrency, s);
  }

  // ----- Which processes are kept

  /** In the pool, or with a session. */
  ghost predicate InPlay(s: State, c: Client) {
    c in s.pool || exists x :: HeldBy(s, x, c)
  }

  predicate HeldBy(s: State, x: Session, c: Client) {
    x in s.sessions && Holds(s.sessions[x], c)
  }

  /** The session that has the process fails, finds it dead, has had a prompt fail, or is abandoned. */
  predicate Drops(s: State, a: Step, c: Client) {
    match a
    case Checked(x, healthy) => HeldBy(s, x, c) && !healthy
    case Reset(x, ok) => HeldBy(s, x, c) && !ok
    case Initialized(x, ok) => HeldBy(s, x, c) && !ok
    case Close(x) => HeldBy(s, x, c) && s.sessions[x].Open? && s.sessions[x].poisoned
    case Returned(x, healthy) => HeldBy(s, x, c) && !healthy
    case Abandon(x) => HeldBy(s, x, c)
    case _ => false
  }

  /** Of other sessions' phases a step changes nothing. */
  lemma OthersStay(s: State, a: Step, x: Session, y: Session)
    requires Inv(s) && Enabled(s, a) && !a.Acquire? && a.session == x && y != x
    ensures y in Next(s, a).sessions <==> y in s.sessions
    ensures y in s.sessions ==> Next(s, a).sessions[y] == s.sessions[y]
  {
    hide OnePlace, CleanTalk, Known, Clients;
  }

  /** What becomes of the session's own process. */
  lemma OwnStays(s: State, a: Step, c: Client)
    requires Inv(s) && Enabled(s, a) && !a.Acquire? && HeldBy(s, a.session, c)
    ensures HeldBy(Next(s, a), a.session, c) || c in Next(s, a).pool <==> !Drops(s, a, c)
  {
    hide CleanTalk, Known, Clients;
    assert c !in s.pool;
  }

  /** What becomes of a process that the session does not have. */
  lemma PooledStays(s: State, a: Step, c: Client)
    requires Inv(s) && Enabled(s, a) && c in s.pool
    ensures InPlay(Next(s, a), c) && !Drops(s, a, c)
  {
    hide CleanTalk, Known, Clients;
    if a.Take? && s.pool[0] == c {
      assert HeldBy(Next(s, a), a.session, c);
    }
  }

  /** A process in play stays in play, and is reused, exactly until a step drops it. */
  lemma KeptIff(s: State, a: Step, c: Client)
    requires Inv(s) && Enabled(s, a) && InPlay(s, c)
    ensures InPlay(Next(s, a), c) <==> !Drops(s, a, c)
  {
    hide CleanTalk, Clients, Next, Enabled, Drops, Holds, OnePlace, Known;
    if c in s.pool {
      PooledStays(s, a, c);
    } else {
      var x :| HeldBy(s, x, c);
      if a.Acquire? {
        AcquireStays(s, x, c);
      } else if a.session == x {
        OwnStays(s, a, c);
        NobodyElse(s, a, x, c);
      } else {
        OthersStay(s, a, a.session, x);
        NotDropped(s, a, x, c);
        assert HeldBy(Next(s, a), x, c);
      }
    }
  }

  lemma AcquireStays(s: State, x: Session, c: Client)
    requires Inv(s) && Enabled(s, Acquire) && HeldBy(s, x, c)
    ensures HeldBy(Next(s, Acquire), x, c) && !Drops(s, Acquire, c)
  {
    hide OnePlace, CleanTalk, Clients;
  }

  lemma NobodyElse(s: State, a: Step, x: Session, c: Client)
    requires Inv(s) && Enabled(s, a) && !a.Acquire? && a.session == x && HeldBy(s, x, c)
    ensures forall y | HeldBy(Next(s, a), y, c) :: y == x
  {
    hide CleanTalk, Clients, Known;
    forall y | y != x
      ensures !HeldBy(Next(s, a), y, c)
    {
      OthersStay(s, a, x, y);
    }
  }

  lemma NotDropped(s: State, a: Step, x: Session, c: Client)
    requires Inv(s) && Enabled(s, a) && !a.Acquire? && a.session != x && HeldBy(s, x, c)
    ensures !Drops(s, a, c)
  {
    hide CleanTalk, Clients, Known, Next;
  }

  // ----- A failed prompt

  /** Nobody has the process, but a session that will not give it back. */
  ghost predicate Spoilt(s: State, x: Session, c: Client) {
    && c < s.started && c !in s.pool
    && forall y | HeldBy(s, y, c) :: y == x && s.sessions[y] == Open(c, true)
  }

  lemma SpoiltStep(s: State, a: Step, x: Session, c: Client)
    requires Inv(s) && Enabled(s, a) && Spoilt(s, x, c)
    ensures Spoilt(Next(s, a), x, c)
  {
    hide OnePlace, CleanTalk, Clients;
  }

  lemma {:induction false} SpoiltStays(s: State, steps: seq<Step>, x: Session, c: Client)
    requires Inv(s) && IsRun(s, steps) && Spoilt(s, x, c)
    ensures Spoilt(After(s, steps), x, c)
    decreases |steps|
  {
    hide OnePlace, CleanTalk, Known, Clients, Next, Enabled, Spoilt;
    if steps != [] {
      SpoiltStep(s, steps[0], x, c);
      CountStep(s, steps[0]);
      PlacesStep(s, steps[0]);
      SpoiltStays(Next(s, steps[0]), steps[1..], x, c);
    }
  }

  /** A process on which a prompt has failed is never pooled again, nor given to another session, whatever happens later. */
  lemma FailedIsGone(concurrency: nat, s: State, x: Session, steps: seq<Step>)
    requires Reachable(concurrency, s) && Enabled(s, Prompt(x, false)) && IsRun(Next(s, Prompt(x, false)), steps)
    ensures var c, s' := s.sessions[x].client, After(Next(s, Prompt(x, false)), steps);
      c !in s'.pool && forall y | HeldBy(s', y, c) :: y == x
  {
    hide Reachable, IsRun, After, CleanTalk, Clients;
    ReachableInv(concurrency, s);
    var c, s1 := s.sessions[x].client, Next(s, Prompt(x, false));
    assert HeldBy(s, x, c);
    CountStep(s, Prompt(x, false));
    PlacesStep(s, Prompt(x, false));
    assert Spoilt(s1, x, c);
    SpoiltStays(s1, steps, x, c);
  }
}
