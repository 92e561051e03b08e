/** Login takeover: many connections log in, each under the login lock of its account, and
    publish themselves in the process-wide registry of agents, one entry per player.

    The handler's reads and writes of shared state are separate steps, interleaved with the
    steps of every other connection. */
module LoginTakeover {
  import opened Options

  type AgentId = nat
  type PlayerId = int
  type Uid = string

  /** Where the login handler of a connection stands. The phases from `Locked` to `Retracted`
      hold the login lock. */
  datatype Phase =
    | Idle
    | Locked
    | Looked(found: Option<AgentId>)
    | Unregistered(other: AgentId)
    | Cleared
    | Linked
    | Published
    | Retracted
    | Done

  datatype Agent = Agent(player: PlayerId, phase: Phase, connected: bool, stopped: bool)

  datatype State = State(
    agents: map<AgentId, Agent>,
    registry: map<PlayerId, AgentId>,
    locks: map<Uid, AgentId>,
    owner: map<PlayerId, Uid>,
    stopping: set<AgentId>)

  datatype Step =
    | Accept(a: AgentId)
    | Refuse(a: AgentId)
    | TakeLock(a: AgentId, player: PlayerId)
    | LookUp(a: AgentId)
    | Unregister(a: AgentId)
    | StopOther(a: AgentId)
    | SkipOther(a: AgentId)
    | GiveUp(a: AgentId)
    | Link(a: AgentId)
    | Publish(a: AgentId)
    | Finish(a: AgentId)
    | Retract(a: AgentId)
    | StopSelf(a: AgentId)
    | StopAgent(a: AgentId)
    | BeginStop(a: AgentId)
    | FinishStop(a: AgentId)

  // ----- the shared operations -----

  function SetPhase(s: State, a: AgentId, phase: Phase): State
    requires a in s.agents
  {
    s.(agents := s.agents[a := s.agents[a].(phase := phase)])
  }

  function GetAgent(s: State, player: PlayerId): Option<AgentId> {
    if player in s.registry then Some(s.registry[player]) else None
  }

  function AddAgent(s: State, a: AgentId): State
    requires a in s.agents
  {
    s.(registry := s.registry[s.agents[a].player := a])
  }

  /** Removes whatever is registered under the agent's player. */
  function DelAgent(s: State, a: AgentId): State
    requires a in s.agents
  {
    s.(registry := s.registry - {s.agents[a].player})
  }

  function RaiseFlag(s: State, a: AgentId): State
    requires a in s.agents
  {
    s.(agents := s.agents[a := s.agents[a].(stopped := true)])
  }

  /** The whole stop procedure at once. */
  function StopNow(s: State, a: AgentId): State
    requires a in s.agents
  {
    if s.agents[a].stopped then s
    else if s.agents[a].connected then DelAgent(RaiseFlag(s, a), a)
    else RaiseFlag(s, a)
  }

  function Unlock(s: State, a: AgentId): State
    requires a in s.agents && s.agents[a].player in s.owner
  {
    s.(locks := s.locks - {s.owner[s.agents[a].player]})
  }

  predicate HoldsLock(phase: Phase) {
    !phase.Idle? && !phase.Done?
  }

  /** Other goroutines can stop an agent only once the registry has shown it to them; a
      connection stops itself only outside its login handler. */
  predicate Stoppable(phase: Phase) {
    phase.Idle? || phase.Published? || phase.Retracted? || phase.Done?
  }

  predicate At(s: State, a: AgentId, phase: Phase) {
    a in s.agents && s.agents[a].phase == phase
  }

  predicate Enabled(s: State, e: Step) {
    match e
    case Accept(a) => a !in s.agents
    case Refuse(a) => At(s, a, Idle)
    case TakeLock(a, player) =>
      At(s, a, Idle) && !s.agents[a].stopped && player in s.owner && s.owner[player] !in s.locks
    case LookUp(a) => At(s, a, Locked)
    case Unregister(a) => a in s.agents && s.agents[a].phase.Looked? && s.agents[a].phase.found.Some?
                          && s.agents[a].phase.found.value in s.agents
    case StopOther(a) => a in s.agents && s.agents[a].phase.Unregistered? && s.agents[a].phase.other in s.agents
    case SkipOther(a) => At(s, a, Looked(None))
    case GiveUp(a) => At(s, a, Cleared) && s.agents[a].player in s.owner
    case Link(a) => At(s, a, Cleared)
    case Publish(a) => At(s, a, Linked)
    case Finish(a) => At(s, a, Published) && s.agents[a].player in s.owner
    case Retract(a) => At(s, a, Published)
    case StopSelf(a) => At(s, a, Retracted) && s.agents[a].player in s.owner
    case StopAgent(a) => a in s.agents && Stoppable(s.agents[a].phase)
    case BeginStop(a) => a in s.agents && Stoppable(s.agents[a].phase) && !s.agents[a].stopped
    case FinishStop(a) => a in s.stopping && a in s.agents
  }

  function Apply(s: State, e: Step): State
    requires Enabled(s, e)
  {
    match e
    case Accept(a) => s.(agents := s.agents[a := Agent(0, Idle, false, false)])
    case Refuse(a) => SetPhase(StopNow(s, a), a, Done)
    case TakeLock(a, player) =>
      s.(agents := s.agents[a := s.agents[a].(player := player, phase := Locked)],
         locks := s.locks[s.owner[player] := a])
    case LookUp(a) => SetPhase(s, a, Looked(GetAgent(s, s.agents[a].player)))
    case Unregister(a) =>
      var other := s.agents[a].phase.found.value;
      SetPhase(DelAgent(s, other), a, Unregistered(other))
    case StopOther(a) => SetPhase(StopNow(s, s.agents[a].phase.other), a, Cleared)
    case SkipOther(a) => SetPhase(s, a, Cleared)
    case GiveUp(a) => SetPhase(Unlock(StopNow(s, a), a), a, Done)
    case Link(a) => s.(agents := s.agents[a := s.agents[a].(phase := Linked, connected := true)])
    case Publish(a) => SetPhase(AddAgent(s, a), a, Published)
    case Finish(a) => SetPhase(Unlock(s, a), a, Done)
    case Retract(a) => SetPhase(DelAgent(s, a), a, Retracted)
    case StopSelf(a) => SetPhase(Unlock(StopNow(s, a), a), a, Done)
    case StopAgent(a) => StopNow(if s.agents[a].phase.Idle? then SetPhase(s, a, Done) else s, a)
    case BeginStop(a) => RaiseFlag(s, a).(stopping := s.stopping + {a})
    case FinishStop(a) => (if s.agents[a].connected then DelAgent(s, a) else s).(stopping := s.stopping - {a})
  }

  // ----- runs -----

  predicate Init(s: State) {
    s.agents == map[] && s.registry == map[] && s.locks == map[] && s.stopping == {}
  }

  ghost predicate IsRun(states: seq<State>, steps: seq<Step>) {
    && |states| == |steps| + 1
    && forall n | 0 <= n < |steps| :: Enabled(states[n], steps[n]) && states[n + 1] == Apply(states[n], steps[n])
  }

  /** No step splits a stop into its flag and its clean-up. */
  predicate Atomic(e: Step) {
    !e.BeginStop? && !e.FinishStop?
  }

  /** The clean-up of a stop removes whatever is registered for the player. That does no harm when
      it finds nobody, or an agent that is being stopped (its own entry, in particular), or an
      agent that a login has found already and is about to stop. */
  ghost predicate HarmlessCleanUp(s: State, b: AgentId)
    requires b in s.agents
  {
    s.agents[b].connected && s.agents[b].player in s.registry && Live(s, s.registry[s.agents[b].player]) ==>
      exists h :: At(s, h, Looked(Some(s.registry[s.agents[b].player])))
  }

  ghost predicate Harmless(s: State, e: Step) {
    e.FinishStop? && e.a in s.agents ==> HarmlessCleanUp(s, e.a)
  }

  ghost predicate AllHarmless(states: seq<State>, steps: seq<Step>)
    requires |steps| <= |states|
  {
    forall n | 0 <= n < |steps| :: Harmless(states[n], steps[n])
  }

  // ----- the invariant -----

  predicate Live(s: State, x: AgentId) {
    x in s.agents && s.agents[x].connected && !s.agents[x].stopped
  }

  predicate Registered(s: State, x: AgentId)
    requires x in s.agents
  {
    s.agents[x].player in s.registry && s.registry[s.agents[x].player] == x
  }

  predicate HoldsItsLock(s: State, a: AgentId)
    requires a in s.agents
  {
    HoldsLock(s.agents[a].phase) ==>
      && s.agents[a].player in s.owner
      && s.owner[s.agents[a].player] in s.locks
      && s.locks[s.owner[s.agents[a].player]] == a
  }

  ghost predicate LocksHeld(s: State) {
    forall a | a in s.agents :: HoldsItsLock(s, a)
  }

  predicate OwnsLock(s: State, u: Uid)
    requires u in s.locks
  {
    var a := s.locks[u];
    && a in s.agents && HoldsLock(s.agents[a].phase)
    && s.agents[a].player in s.owner && s.owner[s.agents[a].player] == u
  }

  ghost predicate LocksOwned(s: State) {
    forall u | u in s.locks :: OwnsLock(s, u)
  }

  /** The agent is live or being stopped right now. */
  predicate LiveOrStopping(s: State, x: AgentId) {
    Live(s, x) || (x in s.agents && s.agents[x].connected && x in s.stopping)
  }

  predicate EntryLive(s: State, p: PlayerId)
    requires p in s.registry
  {
    var x := s.registry[p];
    && LiveOrStopping(s, x) && s.agents[x].player == p && p in s.owner
    && (s.agents[x].phase.Published? || s.agents[x].phase.Done?)
  }

  ghost predicate StoppingFlagged(s: State) {
    forall x | x in s.stopping :: x in s.agents && s.agents[x].stopped
  }

  ghost predicate EntriesLive(s: State) {
    forall p | p in s.registry :: EntryLive(s, p)
  }

  /** Agent `a` is taking over from `x`, whose entry is gone, and has not stopped `x` yet. */
  predicate Evicts(s: State, a: AgentId, x: AgentId)
    requires x in s.agents
  {
    && a in s.agents && s.agents[a].player == s.agents[x].player
    && (|| s.agents[a].phase == Unregistered(x)
        || (s.agents[a].phase == Looked(Some(x)) && s.agents[x].player !in s.registry))
  }

  ghost predicate Accounted(s: State, x: AgentId)
    requires x in s.agents
  {
    || Registered(s, x)
    || s.agents[x].phase.Linked?
    || s.agents[x].phase.Retracted?
    || exists a :: Evicts(s, a, x)
  }

  ghost predicate LiveAccounted(s: State) {
    forall x | Live(s, x) :: Accounted(s, x)
  }

  /** What the handler knows in each phase. */
  ghost predicate Knows(s: State, a: AgentId)
    requires a in s.agents
  {
    var me := s.agents[a];
    match me.phase
    case Idle => !me.connected
    case Locked => !me.connected && !me.stopped
    case Looked(found) =>
      && !me.connected && !me.stopped
      && (me.player in s.registry ==> found == Some(s.registry[me.player]))
      && (found.Some? ==> found.value in s.agents && s.agents[found.value].player == me.player
                              && s.agents[found.value].connected)
    case Unregistered(other) =>
      && !me.connected && !me.stopped && me.player !in s.registry
      && other in s.agents && s.agents[other].player == me.player && s.agents[other].connected
    case Cleared => !me.connected && !me.stopped && me.player !in s.registry
    case Linked => me.connected && !me.stopped && me.player !in s.registry
    case Published => me.connected && (me.player in s.registry ==> s.registry[me.player] == a)
    case Retracted => me.connected && me.player !in s.registry
    case Done => true
  }

  ghost predicate Inv(s: State) {
    && StoppingFlagged(s) && LocksOwned(s)
    && LocksHeld(s) && EntriesLive(s) && LiveAccounted(s)
    && forall a | a in s.agents :: Knows(s, a)
  }

  /** Two lock holders for one player are the same agent. */
  lemma OneHolder(s: State, a: AgentId, b: AgentId)
    requires LocksHeld(s) && a in s.agents && b in s.agents
    requires HoldsLock(s.agents[a].phase) && HoldsLock(s.agents[b].phase)
    requires s.agents[a].player == s.agents[b].player
    ensures a == b
  {
    assert HoldsItsLock(s, a) && HoldsItsLock(s, b);
  }

  predicate Releases(e: Step) {
    e.GiveUp? || e.Finish? || e.StopSelf?
  }

  /** Steps of connections that are not linked to their player yet. */
  predicate Unlinked(e: Step) {
    e.Accept? || e.Refuse? || e.TakeLock? || e.LookUp? || e.Unregister? || e.StopOther? || e.SkipOther? || e.GiveUp?
  }

  // ----- what a step leaves alone -----

  /** The login handler `e.a` raises the flag of the agent it evicts. */
  predicate StoppedByOther(s: State, e: Step, t: State, b: AgentId)
    requires b in s.agents && b in t.agents
  {
    && e.StopOther? && At(s, e.a, Unregistered(b)) && !s.agents[b].stopped
    && t.agents[b] == s.agents[b].(stopped := true)
    && (s.agents[b].connected ==> s.agents[b].player !in t.registry)
  }

  ghost predicate AgentsFrame(s: State, e: Step, t: State) {
    && (forall b | b in t.agents && b != e.a :: b in s.agents)
    && (forall b | b in s.agents :: b in t.agents)
    && (forall b | b in s.agents && b != e.a :: t.agents[b] == s.agents[b] || StoppedByOther(s, e, t, b))
    && (e.a in s.agents && !s.agents[e.a].phase.Idle? ==>
          t.agents[e.a].player == s.agents[e.a].player && (s.agents[e.a].connected ==> t.agents[e.a].connected))
  }

  ghost predicate RegistryFrame(s: State, e: Step, t: State) {
    && (forall p | p in t.registry ::
          || (p in s.registry && t.registry[p] == s.registry[p])
          || (At(s, e.a, Linked) && e.Publish? && p == s.agents[e.a].player && t.registry[p] == e.a))
    && (forall b | b != e.a :: b in s.stopping <==> b in t.stopping)
  }

  /** Locks are taken only when free and released only by their holder. */
  ghost predicate LocksFrame(s: State, e: Step, t: State) {
    && t.owner == s.owner
    && (forall u | u in s.locks ::
          || (u in t.locks && t.locks[u] == s.locks[u])
          || (Releases(e) && e.a in s.agents && HoldsLock(s.agents[e.a].phase)
              && s.agents[e.a].player in s.owner && u == s.owner[s.agents[e.a].player]))
    && (forall u | u in t.locks :: u in s.locks || (e.TakeLock? && t.locks[u] == e.a))
  }

  ghost predicate Frame(s: State, e: Step, t: State) {
    AgentsFrame(s, e, t) && RegistryFrame(s, e, t) && LocksFrame(s, e, t)
  }

  lemma StepLocksFrame(s: State, e: Step)
    requires Enabled(s, e)
    ensures LocksFrame(s, e, Apply(s, e))
  {
    if Releases(e) {
      assert Apply(s, e).locks == s.locks - {s.owner[s.agents[e.a].player]};
    } else {
      assert e.TakeLock? || Apply(s, e).locks == s.locks;
    }
  }

  lemma UnlinkedAgentsFrame(s: State, e: Step)
    requires Enabled(s, e) && Unlinked(e)
    ensures AgentsFrame(s, e, Apply(s, e))
  {
  }

  lemma LinkedAgentsFrame(s: State, e: Step)
    requires Enabled(s, e) && !Unlinked(e)
    ensures AgentsFrame(s, e, Apply(s, e))
  {
  }

  lemma StepAgentsFrame(s: State, e: Step)
    requires Enabled(s, e)
    ensures AgentsFrame(s, e, Apply(s, e))
  {
    if Unlinked(e) {
      UnlinkedAgentsFrame(s, e);
    } else {
      LinkedAgentsFrame(s, e);
    }
  }

  lemma StepRegistryFrame(s: State, e: Step)
    requires Enabled(s, e)
    ensures RegistryFrame(s, e, Apply(s, e))
  {
  }

  lemma StepFrame(s: State, e: Step)
    requires Enabled(s, e)
    ensures Frame(s, e, Apply(s, e))
  {
    StepAgentsFrame(s, e);
    StepRegistryFrame(s, e);
    StepLocksFrame(s, e);
  }

  // ----- locks -----

  lemma MoverLock(s: State, e: Step)
    requires LocksHeld(s) && Enabled(s, e)
    ensures e.a in Apply(s, e).agents && HoldsItsLock(Apply(s, e), e.a)
  {
    if e.a in s.agents {
      assert HoldsItsLock(s, e.a);
    }
  }

  lemma BystanderLock(s: State, e: Step, t: State, b: AgentId)
    requires LocksHeld(s) && Frame(s, e, t) && b in s.agents && b != e.a
    ensures HoldsItsLock(t, b)
  {
    assert HoldsItsLock(s, b);
    if e.a in s.agents {
      assert HoldsItsLock(s, e.a);
    }
  }

  lemma LocksStep(s: State, e: Step, b: AgentId)
    requires LocksHeld(s) && Enabled(s, e) && b in Apply(s, e).agents
    ensures HoldsItsLock(Apply(s, e), b)
  {
    if b == e.a {
      MoverLock(s, e);
    } else {
      StepFrame(s, e);
      BystanderLock(s, e, Apply(s, e), b);
    }
  }

  lemma HolderStays(s: State, e: Step)
    requires Enabled(s, e) && e.a in s.agents && HoldsLock(s.agents[e.a].phase) && !Releases(e)
    ensures var t := Apply(s, e);
            e.a in t.agents && HoldsLock(t.agents[e.a].phase) && t.agents[e.a].player == s.agents[e.a].player
  {
  }

  /** A lock that its holder keeps stays owned; only a holder keeps its own lock. */
  lemma MoverOwns(s: State, e: Step, u: Uid)
    requires LocksOwned(s) && Enabled(s, e) && u in s.locks && s.locks[u] == e.a && u in Apply(s, e).locks
    ensures OwnsLock(Apply(s, e), u)
  {
    assert OwnsLock(s, u);
    StepLocksFrame(s, e);
    ReleaseFreesOwn(s, e, u);
    HolderStays(s, e);
  }

  lemma ReleaseFreesOwn(s: State, e: Step, u: Uid)
    requires Enabled(s, e) && u in s.locks && s.locks[u] == e.a && OwnsLock(s, u) && u in Apply(s, e).locks
    ensures !Releases(e) && Apply(s, e).locks[u] == e.a
  {
  }

  lemma BystanderOwns(s: State, e: Step, t: State, u: Uid)
    requires LocksOwned(s) && Frame(s, e, t) && u in s.locks && u in t.locks && s.locks[u] != e.a
    requires t.locks[u] == s.locks[u]
    ensures OwnsLock(t, u)
  {
    assert OwnsLock(s, u);
  }

  lemma OwnedStep(s: State, e: Step, u: Uid)
    requires LocksHeld(s) && LocksOwned(s) && Enabled(s, e) && u in Apply(s, e).locks
    ensures OwnsLock(Apply(s, e), u)
  {
    if e.TakeLock? && Apply(s, e).locks[u] == e.a && u !in s.locks {
      assert u == s.owner[e.player];
    } else if u in s.locks && s.locks[u] == e.a {
      MoverOwns(s, e, u);
    } else {
      StepFrame(s, e);
      BystanderOwns(s, e, Apply(s, e), u);
    }
  }

  lemma MoverFlagged(s: State, e: Step)
    requires StoppingFlagged(s) && Enabled(s, e) && e.a in Apply(s, e).stopping
    ensures e.a in Apply(s, e).agents && Apply(s, e).agents[e.a].stopped
  {
  }

  lemma FlaggedStep(s: State, e: Step, x: AgentId)
    requires StoppingFlagged(s) && Enabled(s, e) && x in Apply(s, e).stopping
    ensures x in Apply(s, e).agents && Apply(s, e).agents[x].stopped
  {
    if x == e.a {
      MoverFlagged(s, e);
    } else {
      StepFrame(s, e);
      assert x in s.stopping;
    }
  }

  // ----- entries -----

  lemma PublishedEntry(s: State, e: Step)
    requires Inv(s) && Enabled(s, e) && e.Publish?
    ensures var p := s.agents[e.a].player;
            p in Apply(s, e).registry && EntryLive(Apply(s, e), p)
  {
    assert Knows(s, e.a) && HoldsItsLock(s, e.a);
  }

  lemma MoverEntry(s: State, e: Step, p: PlayerId)
    requires Inv(s) && Enabled(s, e) && p in Apply(s, e).registry && Apply(s, e).registry[p] == e.a
    ensures EntryLive(Apply(s, e), p)
  {
    if e.Publish? && p == s.agents[e.a].player {
      PublishedEntry(s, e);
    } else {
      StepRegistryFrame(s, e);
      assert EntryLive(s, p);
    }
  }

  lemma BystanderEntry(s: State, e: Step, t: State, p: PlayerId)
    requires Inv(s) && Frame(s, e, t) && p in t.registry && t.registry[p] != e.a
    ensures EntryLive(t, p)
  {
    assert EntryLive(s, p);
  }

  /** An entry after a step: kept from before, or just published. */
  lemma EntryStep(s: State, e: Step, p: PlayerId)
    requires Inv(s) && Enabled(s, e) && p in Apply(s, e).registry
    ensures EntryLive(Apply(s, e), p)
  {
    if Apply(s, e).registry[p] == e.a {
      MoverEntry(s, e, p);
    } else {
      StepFrame(s, e);
      BystanderEntry(s, e, Apply(s, e), p);
    }
  }

  // ----- live agents -----

  lemma OneLive(s: State, x: AgentId, y: AgentId)
    requires Inv(s) && Live(s, x) && Live(s, y) && s.agents[x].player == s.agents[y].player
    ensures x == y
  {
    var hx := Keeper(s, x);
    var hy := Keeper(s, y);
    assert Knows(s, x) && Knows(s, y) && Knows(s, hx) && Knows(s, hy);
    if !Registered(s, x) && !Registered(s, y) {
      OneHolder(s, hx, hy);
    }
  }

  /** The agent whose handler answers for a live agent that is not registered. */
  lemma Keeper(s: State, x: AgentId) returns (a: AgentId)
    requires Inv(s) && Live(s, x)
    ensures a in s.agents && s.agents[a].player == s.agents[x].player
    ensures Registered(s, x) ||
            (&& HoldsLock(s.agents[a].phase)
             && s.agents[x].player !in s.registry
             && ((a == x && (s.agents[x].phase.Linked? || s.agents[x].phase.Retracted?)) || Evicts(s, a, x)))
  {
    assert Accounted(s, x) && Knows(s, x);
    a := x;
    if !Registered(s, x) && !s.agents[x].phase.Linked? && !s.agents[x].phase.Retracted? {
      a :| Evicts(s, a, x);
      assert Knows(s, a);
    }
  }

  // ----- what the handlers know -----

  lemma MoverKnows(s: State, e: Step)
    requires Inv(s) && Enabled(s, e)
    ensures e.a in Apply(s, e).agents && Knows(Apply(s, e), e.a)
  {
    if e.a in s.agents {
      assert Knows(s, e.a);
    }
  }

  lemma FlaggedKnows(s: State, e: Step, t: State, b: AgentId)
    requires Inv(s) && Frame(s, e, t) && b in s.agents && b != e.a && StoppedByOther(s, e, t, b)
    ensures Knows(t, b)
  {
    assert Knows(s, b) && Knows(s, e.a);
    if HoldsLock(s.agents[b].phase) {
      OneHolder(s, b, e.a);
    }
  }

  /** A step of one agent leaves what another agent knows true: only lock holders for the same
      player could disturb each other. */
  lemma BystanderKnows(s: State, e: Step, t: State, b: AgentId)
    requires Inv(s) && Frame(s, e, t) && b in s.agents && b != e.a
    ensures Knows(t, b)
  {
    assert Knows(s, b);
    if t.agents[b] != s.agents[b] {
      FlaggedKnows(s, e, t, b);
    } else {
      if HoldsLock(s.agents[b].phase) {
        EntryOfHolder(s, e, t, b);
      }
      assert forall c | c in s.agents && s.agents[c].connected ::
          t.agents[c].connected && t.agents[c].player == s.agents[c].player by {
        assert e.a in s.agents ==> Knows(s, e.a);
      }
    }
  }

  lemma EntryOfHolder(s: State, e: Step, t: State, b: AgentId)
    requires Inv(s) && Frame(s, e, t) && b in s.agents && b != e.a && HoldsLock(s.agents[b].phase)
    ensures var p := s.agents[b].player;
            p in t.registry ==> p in s.registry && t.registry[p] == s.registry[p]
  {
    if At(s, e.a, Linked) && s.agents[e.a].player == s.agents[b].player {
      OneHolder(s, b, e.a);
    }
  }

  lemma KnowsStep(s: State, e: Step, b: AgentId)
    requires Inv(s) && Enabled(s, e) && b in Apply(s, e).agents
    ensures Knows(Apply(s, e), b)
  {
    if b == e.a {
      MoverKnows(s, e);
    } else {
      StepFrame(s, e);
      BystanderKnows(s, e, Apply(s, e), b);
    }
  }

  // ----- who answers for a live agent -----

  lemma EvictionStays(s: State, e: Step, t: State, a: AgentId, x: AgentId)
    requires Inv(s) && Frame(s, e, t) && a != e.a && Live(s, x) && Live(t, x) && Evicts(s, a, x)
    ensures Evicts(t, a, x)
  {
    assert Knows(s, a) && Knows(s, x);
    EntryOfHolder(s, e, t, a);
    if e.a in s.agents {
      assert Knows(s, e.a);
    }
  }

  lemma EvictionGoesOn(s: State, e: Step, x: AgentId)
    requires Inv(s) && Enabled(s, e) && Live(s, x) && Live(Apply(s, e), x) && Evicts(s, e.a, x)
    ensures Evicts(Apply(s, e), e.a, x)
  {
    assert e.Unregister? || e.StopOther?;
    assert Knows(s, e.a) && Knows(s, x);
  }

  lemma MoverHandover(s: State, e: Step)
    requires Enabled(s, e) && Live(s, e.a) && Live(Apply(s, e), e.a)
    requires s.agents[e.a].phase.Linked? || s.agents[e.a].phase.Retracted?
    ensures Accounted(Apply(s, e), e.a)
  {
  }

  lemma HandoverStays(s: State, e: Step, x: AgentId)
    requires Enabled(s, e) && Live(s, x) && Live(Apply(s, e), x)
    requires s.agents[x].phase.Linked? || s.agents[x].phase.Retracted?
    ensures Accounted(Apply(s, e), x)
  {
    if x == e.a {
      MoverHandover(s, e);
    } else {
      StepAgentsFrame(s, e);
    }
  }

  /** Only linking brings an agent to life. */
  lemma LiveBefore(s: State, e: Step, x: AgentId)
    requires Enabled(s, e) && Live(Apply(s, e), x) && !(e.Link? && e.a == x)
    ensures Live(s, x)
  {
    if x != e.a {
      StepAgentsFrame(s, e);
    }
  }

  /** A clean-up that does no harm takes the entry of a live agent only from under a login that is
      about to stop that agent. */
  lemma CleanUpLost(s: State, e: Step, x: AgentId)
    requires Inv(s) && Enabled(s, e) && Harmless(s, e) && Live(s, x) && Registered(s, x) && e.FinishStop?
    ensures Accounted(Apply(s, e), x)
  {
    if !Registered(Apply(s, e), x) {
      var h :| At(s, h, Looked(Some(x)));
      assert Knows(s, h);
      assert Evicts(Apply(s, e), h, x);
    }
  }

  /** Which step takes the entry of a live agent away, and what answers for the agent then. */
  lemma RegistrationLost(s: State, e: Step, x: AgentId)
    requires Inv(s) && Enabled(s, e) && Harmless(s, e) && Live(s, x) && Live(Apply(s, e), x) && Registered(s, x)
    ensures Accounted(Apply(s, e), x)
  {
    if e.FinishStop? {
      CleanUpLost(s, e, x);
    } else if e.a in s.agents {
      assert Knows(s, e.a);
      var target := if e.StopOther? then s.agents[e.a].phase.other else e.a;
      if Live(s, target) && s.agents[target].player == s.agents[x].player {
        OneLive(s, x, target);
      }
      assert Registered(Apply(s, e), x) || Apply(s, e).agents[x].phase.Retracted? || Evicts(Apply(s, e), e.a, x);
    }
  }

  lemma AccountedStep(s: State, e: Step, x: AgentId)
    requires Inv(s) && Enabled(s, e) && Harmless(s, e) && Live(Apply(s, e), x)
    ensures Accounted(Apply(s, e), x)
  {
    if e.Link? && e.a == x {
      assert Apply(s, e).agents[x].phase.Linked?;
    } else {
      LiveBefore(s, e, x);
      assert Accounted(s, x);
      if a :| Evicts(s, a, x) {
        EvictionStep(s, e, a, x);
      } else if Registered(s, x) {
        RegistrationLost(s, e, x);
      } else {
        HandoverStays(s, e, x);
      }
    }
  }

  lemma EvictionStep(s: State, e: Step, a: AgentId, x: AgentId)
    requires Inv(s) && Enabled(s, e) && Live(s, x) && Live(Apply(s, e), x) && Evicts(s, a, x)
    ensures Evicts(Apply(s, e), a, x)
  {
    if a == e.a {
      EvictionGoesOn(s, e, x);
    } else {
      StepFrame(s, e);
      EvictionStays(s, e, Apply(s, e), a, x);
    }
  }

  lemma InvStep(s: State, e: Step)
    requires Inv(s) && Enabled(s, e) && Harmless(s, e)
    ensures Inv(Apply(s, e))
  {
    var t := Apply(s, e);
    forall x | x in t.stopping ensures x in t.agents && t.agents[x].stopped {
      FlaggedStep(s, e, x);
    }
    forall u | u in t.locks ensures OwnsLock(t, u) {
      OwnedStep(s, e, u);
    }
    forall p | p in t.registry ensures EntryLive(t, p) {
      EntryStep(s, e, p);
    }
    forall b | b in t.agents ensures HoldsItsLock(t, b) && Knows(t, b) {
      LocksStep(s, e, b);
      KnowsStep(s, e, b);
    }
    forall x | Live(t, x) ensures Accounted(t, x) {
      AccountedStep(s, e, x);
    }
  }

  lemma {:induction false} InvRun(states: seq<State>, steps: seq<Step>)
    requires IsRun(states, steps) && Inv(states[0]) && AllHarmless(states, steps)
    ensures Inv(states[|steps|])
    decreases |steps|
  {
    if steps != [] {
      var m := |steps| - 1;
      InvRun(states[..m + 1], steps[..m]);
      InvStep(states[m], steps[m]);
    }
  }

  lemma InitInv(s: State)
    requires Init(s)
    ensures Inv(s)
  {
  }

  // ----- the main results -----

  /** With stops split into their flag and their clean-up, and as long as no clean-up does harm: no
      two live agents serve one player; an entry of the registry names an agent of that very player
      that is live or being stopped; and a live agent is the one registered, unless a login for its
      account is in progress right now. */
  lemma OneAgentPerPlayer(states: seq<State>, steps: seq<Step>)
    requires IsRun(states, steps) && Init(states[0]) && AllHarmless(states, steps)
    ensures var s := states[|steps|];
            && !TwoLive(s)
            && (forall p | p in s.registry ::
                  LiveOrStopping(s, s.registry[p]) && s.agents[s.registry[p]].player == p)
            && (forall x | Live(s, x) ::
                  Registered(s, x) || (s.agents[x].player in s.owner && s.owner[s.agents[x].player] in s.locks))
  {
    var s := states[|steps|];
    InitInv(states[0]);
    InvRun(states, steps);
    NoTwoLive(s);
    forall x | Live(s, x) && !Registered(s, x)
      ensures s.agents[x].player in s.owner && s.owner[s.agents[x].player] in s.locks
    {
      var a := Keeper(s, x);
      assert HoldsItsLock(s, a);
    }
  }

  /** Two live agents serve one player. */
  ghost predicate TwoLive(s: State) {
    exists x, y :: x != y && Live(s, x) && Live(s, y) && s.agents[x].player == s.agents[y].player
  }

  lemma NoTwoLive(s: State)
    requires Inv(s)
    ensures !TwoLive(s)
  {
    forall x, y | Live(s, x) && Live(s, y) && s.agents[x].player == s.agents[y].player ensures x == y {
      OneLive(s, x, y);
    }
  }

  /** When every stop is one step, nothing does harm and nobody is ever half stopped. */
  lemma {:induction false} AtomicStopsAreHarmless(states: seq<State>, steps: seq<Step>)
    requires IsRun(states, steps) && Init(states[0]) && forall n | 0 <= n < |steps| :: Atomic(steps[n])
    ensures AllHarmless(states, steps) && Inv(states[|steps|]) && states[|steps|].stopping == {}
    decreases |steps|
  {
    InitInv(states[0]);
    if steps != [] {
      var m := |steps| - 1;
      AtomicStopsAreHarmless(states[..m + 1], steps[..m]);
      InvStep(states[m], steps[m]);
    }
  }

  /** Why the stops that a login handler performs are one step each: it holds the lock, nobody is
      registered for the player, and so their clean-up, whenever it runs, removes nothing. */
  lemma HandlerStopsRemoveNothing(s: State, e: Step)
    requires Inv(s) && Enabled(s, e) && (e.Refuse? || e.StopOther? || e.GiveUp? || e.StopSelf?)
    ensures Apply(s, e).registry == s.registry
  {
    assert Knows(s, e.a);
  }

  // ----- who is stopped, who is linked -----

  /** The step stops agent `x`. */
  predicate Stops(s: State, e: Step, x: AgentId) {
    || (e.StopOther? && At(s, e.a, Unregistered(x)))
    || ((e.Refuse? || e.GiveUp? || e.StopSelf? || e.StopAgent? || e.BeginStop?) && e.a == x)
  }

  predicate IsStopped(s: State, x: AgentId) {
    x in s.agents && s.agents[x].stopped
  }

  predicate IsConnected(s: State, x: AgentId) {
    x in s.agents && s.agents[x].connected
  }

  lemma UnlinkedFlagStep(s: State, e: Step, x: AgentId)
    requires Enabled(s, e) && Unlinked(e)
    ensures IsStopped(Apply(s, e), x) <==> IsStopped(s, x) || Stops(s, e, x)
    ensures IsConnected(Apply(s, e), x) <==> IsConnected(s, x)
  {
  }

  lemma LinkedFlagStep(s: State, e: Step, x: AgentId)
    requires Enabled(s, e) && !Unlinked(e)
    ensures IsStopped(Apply(s, e), x) <==> IsStopped(s, x) || Stops(s, e, x)
    ensures IsConnected(Apply(s, e), x) <==> IsConnected(s, x) || e == Link(x)
  {
  }

  ghost predicate StopsBefore(states: seq<State>, steps: seq<Step>, x: AgentId, n: nat)
    requires |states| == |steps| + 1 && n <= |steps|
  {
    exists m | 0 <= m < n :: Stops(states[m], steps[m], x)
  }

  ghost predicate LinksBefore(steps: seq<Step>, x: AgentId, n: nat)
    requires n <= |steps|
  {
    exists m | 0 <= m < n :: steps[m] == Link(x)
  }

  lemma StopsOneMore(states: seq<State>, steps: seq<Step>, x: AgentId, n: nat)
    requires |states| == |steps| + 1 && 0 < n <= |steps|
    ensures StopsBefore(states, steps, x, n) <==>
            StopsBefore(states, steps, x, n - 1) || Stops(states[n - 1], steps[n - 1], x)
  {
  }

  lemma LinksOneMore(steps: seq<Step>, x: AgentId, n: nat)
    requires 0 < n <= |steps|
    ensures LinksBefore(steps, x, n) <==> LinksBefore(steps, x, n - 1) || steps[n - 1] == Link(x)
  {
  }

  lemma FlagStep(s: State, e: Step, x: AgentId)
    requires Enabled(s, e)
    ensures IsStopped(Apply(s, e), x) <==> IsStopped(s, x) || Stops(s, e, x)
    ensures IsConnected(Apply(s, e), x) <==> IsConnected(s, x) || e == Link(x)
  {
    if Unlinked(e) {
      UnlinkedFlagStep(s, e, x);
    } else {
      LinkedFlagStep(s, e, x);
    }
  }

  lemma FlagAt(states: seq<State>, steps: seq<Step>, x: AgentId, m: nat, n: nat)
    requires IsRun(states, steps) && n == m + 1 <= |steps|
    ensures IsStopped(states[n], x) <==> IsStopped(states[m], x) || Stops(states[m], steps[m], x)
    ensures IsConnected(states[n], x) <==> IsConnected(states[m], x) || steps[m] == Link(x)
  {
    FlagStep(states[m], steps[m], x);
  }

  /** An agent is connected exactly when its login linked it, and stopped exactly when a refused or
      failed login, a takeover, or anybody who got it from the registry has stopped it. */
  lemma {:induction false} StoppedIff(states: seq<State>, steps: seq<Step>, x: AgentId, n: nat)
    requires IsRun(states, steps) && Init(states[0]) && n <= |steps|
    ensures IsStopped(states[n], x) <==> StopsBefore(states, steps, x, n)
    ensures IsConnected(states[n], x) <==> LinksBefore(steps, x, n)
    decreases n
  {
    if n > 0 {
      StoppedIff(states, steps, x, n - 1);
      FlagAt(states, steps, x, n - 1, n);
      StopsOneMore(states, steps, x, n);
      LinksOneMore(steps, x, n);
    }
  }
}
