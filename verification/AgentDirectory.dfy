/** The registry of agents and the login handler in place. The object records the steps it
    performs, so whatever it does is a run of the takeover protocol. */
module AgentDirectories {
  import opened LoginTakeover
  import opened Options

  class AgentDirectory {
    var agents: map<AgentId, Agent>
    var registry: map<PlayerId, AgentId>
    var locks: map<Uid, AgentId>
    const owner: map<PlayerId, Uid>
    ghost var states: seq<State>
    ghost var steps: seq<Step>

    ghost function View(): State
      reads this
    {
      State(agents, registry, locks, owner, {})
    }

    ghost predicate Valid()
      reads this
    {
      && IsRun(states, steps) && Init(states[0]) && states[|steps|] == View()
      && forall n | 0 <= n < |steps| :: Atomic(steps[n])
    }

    constructor (owner: map<PlayerId, Uid>)
      ensures Valid() && agents == map[] && registry == map[] && locks == map[] && this.owner == owner
    {
      agents, registry, locks := map[], map[], map[];
      this.owner := owner;
      states, steps := [State(map[], map[], map[], owner, {})], [];
    }

    /** What every reachable directory satisfies. */
    lemma OneAgentEach()
      requires Valid()
      ensures forall x, y | Live(View(), x) && Live(View(), y) && agents[x].player == agents[y].player :: x == y
      ensures forall p | p in registry :: Live(View(), registry[p]) && agents[registry[p]].player == p
    {
      AtomicStopsAreHarmless(states, steps);
      OneAgentPerPlayer(states, steps);
      NoTwoLive(View());
    }

    ghost method Record(before: State, e: Step)
      requires IsRun(states, steps) && Init(states[0]) && states[|steps|] == before
      requires forall n | 0 <= n < |steps| :: Atomic(steps[n])
      requires Enabled(before, e) && Atomic(e) && View() == Apply(before, e)
      modifies `states, `steps
      ensures Valid() && steps == old(steps) + [e]
    {
      states, steps := states + [View()], steps + [e];
    }

    method SetPhaseOf(a: AgentId, phase: Phase)
      requires a in agents
      modifies `agents
      ensures View() == SetPhase(old(View()), a, phase)
    {
      agents := agents[a := agents[a].(phase := phase)];
    }

    method Store(a: AgentId)
      requires a in agents
      modifies `registry
      ensures View() == AddAgent(old(View()), a)
    {
      registry := registry[agents[a].player := a];
    }

    method Delete(a: AgentId)
      requires a in agents
      modifies `registry
      ensures View() == DelAgent(old(View()), a)
    {
      registry := registry - {agents[a].player};
    }

    method Load(player: PlayerId) returns (found: Option<AgentId>)
      ensures found == GetAgent(View(), player)
    {
      if player in registry {
        return Some(registry[player]);
      }
      return None;
    }

    /** The stop procedure: the flag decides who performs it; only a connected agent cleans up. */
    method StopProcedure(a: AgentId)
      requires a in agents
      modifies `agents, `registry
      ensures View() == StopNow(old(View()), a)
    {
      if agents[a].stopped {
        return;
      }
      agents := agents[a := agents[a].(stopped := true)];
      if agents[a].connected {
        Delete(a);
      }
    }

    method ReleaseLock(a: AgentId)
      requires a in agents && agents[a].player in owner
      modifies `locks
      ensures View() == Unlock(old(View()), a)
    {
      locks := locks - {owner[agents[a].player]};
    }

    method AcceptConnection(a: AgentId)
      requires Valid() && a !in agents
      modifies this
      ensures Valid() && steps == old(steps) + [Accept(a)]
      ensures agents == old(agents)[a := Agent(0, Idle, false, false)] && registry == old(registry)
    {
      ghost var before := View();
      agents := agents[a := Agent(0, Idle, false, false)];
      Record(before, Accept(a));
    }

    /** Any party stops an agent it got from the registry, or a connection stops itself. */
    method StopFromOutside(a: AgentId)
      requires Valid() && a in agents && Stoppable(agents[a].phase)
      modifies this
      ensures Valid() && steps == old(steps) + [StopAgent(a)]
      ensures a in agents && agents[a].stopped
    {
      ghost var before := View();
      if agents[a].phase.Idle? {
        SetPhaseOf(a, Done);
      }
      StopProcedure(a);
      Record(before, StopAgent(a));
    }

    /** The takeover part of the handler, under the lock. */
    method TakeOver(a: AgentId)
      requires Valid() && At(View(), a, Locked)
      modifies this
      ensures Valid() && At(View(), a, Cleared) && agents[a].player == old(agents)[a].player
      ensures locks == old(locks) && agents[a].player !in registry
    {
      ghost var before := View();
      var another := Load(agents[a].player);
      SetPhaseOf(a, Looked(another));
      Record(before, LookUp(a));
      if another.Some? {
        StopPredecessor(a, another.value);
      } else {
        ghost var looked := View();
        SetPhaseOf(a, Cleared);
        Record(looked, SkipOther(a));
        ClearedMeansNoEntry(a);
      }
    }

    lemma ClearedMeansNoEntry(a: AgentId)
      requires Valid() && At(View(), a, Cleared)
      ensures agents[a].player !in registry
    {
      AtomicStopsAreHarmless(states, steps);
      assert Knows(View(), a);
    }

    method StopPredecessor(a: AgentId, another: AgentId)
      requires Valid() && At(View(), a, Looked(Some(another)))
      modifies this
      ensures Valid() && At(View(), a, Cleared) && agents[a].player == old(agents)[a].player
      ensures locks == old(locks) && agents[a].player !in registry
    {
      AtomicStopsAreHarmless(states, steps);
      assert Knows(View(), a);
      ghost var looked := View();
      Delete(another);
      SetPhaseOf(a, Unregistered(another));
      Record(looked, Unregister(a));
      AtomicStopsAreHarmless(states, steps);
      assert Knows(View(), a);
      ghost var gone := View();
      StopProcedure(another);
      SetPhaseOf(a, Cleared);
      Record(gone, StopOther(a));
      ClearedMeansNoEntry(a);
    }

    method Abandon(a: AgentId)
      requires Valid() && At(View(), a, Cleared) && agents[a].player in owner
      modifies this
      ensures Valid() && At(View(), a, Done) && agents[a].stopped
      ensures owner[old(agents)[a].player] !in locks
    {
      ghost var before := View();
      StopProcedure(a);
      ReleaseLock(a);
      SetPhaseOf(a, Done);
      Record(before, GiveUp(a));
    }

    method LinkAndPublish(a: AgentId)
      requires Valid() && At(View(), a, Cleared)
      modifies this
      ensures Valid() && At(View(), a, Published) && Registered(View(), a) && Live(View(), a)
      ensures agents[a].player == old(agents)[a].player
    {
      AtomicStopsAreHarmless(states, steps);
      assert Knows(View(), a);
      ghost var before := View();
      agents := agents[a := agents[a].(phase := Linked, connected := true)];
      Record(before, Link(a));
      ghost var linked := View();
      Store(a);
      SetPhaseOf(a, Published);
      Record(linked, Publish(a));
    }

    method RetractAndStop(a: AgentId)
      requires Valid() && At(View(), a, Published) && agents[a].player in owner
      modifies this
      ensures Valid() && At(View(), a, Done) && agents[a].stopped
      ensures agents[a].player == old(agents)[a].player && agents[a].player !in registry
      ensures owner[agents[a].player] !in locks
    {
      ghost var published := View();
      Delete(a);
      SetPhaseOf(a, Retracted);
      Record(published, Retract(a));
      ghost var retracted := View();
      StopProcedure(a);
      ReleaseLock(a);
      SetPhaseOf(a, Done);
      Record(retracted, StopSelf(a));
    }

    /** After the takeover: place and connect the player, publish the agent, forward the login. */
    method ConnectAndPublish(a: AgentId, connected: bool, forwarded: bool)
      requires Valid() && At(View(), a, Cleared) && agents[a].player in owner
      modifies this
      ensures Valid() && At(View(), a, Done)
      ensures owner[old(agents)[a].player] !in locks
      ensures if connected && forwarded
              then Registered(View(), a) && Live(View(), a) && agents[a].player == old(agents)[a].player
              else agents[a].stopped
    {
      if !connected {
        Abandon(a);
        return;
      }
      LinkAndPublish(a);
      if !forwarded {
        RetractAndStop(a);
        return;
      }
      ghost var published := View();
      ReleaseLock(a);
      SetPhaseOf(a, Done);
      Record(published, Finish(a));
    }

    /** One login request, undisturbed: afterwards the connection is the registered agent of its
        player, or it is stopped. */
    method HandleLoginReq(a: AgentId, validToken: bool, player: PlayerId,
                          gotLock: bool, connected: bool, forwarded: bool)
      requires Valid() && At(View(), a, Idle) && !agents[a].stopped && player in owner
      requires gotLock ==> owner[player] !in locks
      modifies this
      ensures Valid() && At(View(), a, Done)
      ensures validToken && gotLock ==> owner[player] !in locks
      ensures if validToken && gotLock && connected && forwarded
              then Registered(View(), a) && Live(View(), a) && agents[a].player == player
              else agents[a].stopped
    {
      ghost var before := View();
      if !validToken || !gotLock {
        StopProcedure(a);
        SetPhaseOf(a, Done);
        Record(before, Refuse(a));
        return;
      }
      agents, locks := agents[a := agents[a].(player := player, phase := Locked)], locks[owner[player] := a];
      Record(before, TakeLock(a, player));
      TakeOver(a);
      ConnectAndPublish(a, connected, forwarded);
    }
  }
}
