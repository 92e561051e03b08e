/** What a stop that is split into its flag and its clean-up can lead to, and other runs outside the
    assumptions of the takeover protocol. */
module LateCleanUps {
  import opened LoginTakeover
  import opened Options

  // ----- runs without harmful clean-ups -----

  ghost predicate RunsTo(s: State, t: State, states: seq<State>, steps: seq<Step>) {
    && IsRun(states, steps) && AllHarmless(states, steps)
    && states[0] == s && states[|steps|] == t
  }

  /** Some run in which no clean-up does harm leads from `s` to `t`. */
  ghost predicate Reaches(s: State, t: State) {
    exists states, steps :: RunsTo(s, t, states, steps)
  }

  lemma ReachesSelf(s: State)
    ensures Reaches(s, s)
  {
    assert RunsTo(s, s, [s], []);
  }

  lemma OneStep(s: State, t: State, e: Step) returns (u: State)
    requires Reaches(s, t) && Enabled(t, e) && Harmless(t, e)
    ensures u == Apply(t, e) && Reaches(s, u)
  {
    u := Apply(t, e);
    var states, steps :| RunsTo(s, t, states, steps);
    var all, run := states + [u], steps + [e];
    forall n | 0 <= n < |run|
      ensures Enabled(all[n], run[n]) && all[n + 1] == Apply(all[n], run[n]) && Harmless(all[n], run[n])
    {
      if n < |steps| {
        assert all[n] == states[n] && all[n + 1] == states[n + 1];
      }
    }
    assert RunsTo(s, u, all, run);
  }

  // ----- an undisturbed login -----

  function Joined(s: State, a: AgentId, player: PlayerId): State {
    s.(agents := s.agents[a := Agent(player, Done, true, false)], registry := s.registry[player := a])
  }

  /** An undisturbed login of a new connection, with or without a predecessor whose flag is
      already raised. */
  lemma Login(s0: State, s: State, a: AgentId, p: PlayerId)
    requires Reaches(s0, s) && a !in s.agents && p in s.owner && s.owner[p] !in s.locks
    requires p in s.registry ==>
               s.registry[p] in s.agents && s.agents[s.registry[p]].player == p && s.agents[s.registry[p]].stopped
    ensures Reaches(s0, Joined(s, a, p))
  {
    var t := LoginStart(s0, s, a, p);
    if p in s.registry {
      t := OneStep(s0, t, Unregister(a));
      t := OneStep(s0, t, StopOther(a));
    } else {
      t := OneStep(s0, t, SkipOther(a));
      assert s.registry == s.registry - {p};
    }
    assert t.agents == s.agents[a := Agent(p, Cleared, false, false)];
    LoginRest(s0, s, t, a, p);
  }

  lemma LoginStart(s0: State, s: State, a: AgentId, p: PlayerId) returns (t: State)
    requires Reaches(s0, s) && a !in s.agents && p in s.owner && s.owner[p] !in s.locks
    ensures Reaches(s0, t)
    ensures t == State(s.agents[a := Agent(p, Looked(GetAgent(s, p)), false, false)], s.registry,
                       s.locks[s.owner[p] := a], s.owner, s.stopping)
  {
    t := OneStep(s0, s, Accept(a));
    t := OneStep(s0, t, TakeLock(a, p));
    t := OneStep(s0, t, LookUp(a));
    assert t.agents == s.agents[a := Agent(p, Looked(GetAgent(s, p)), false, false)];
  }

  lemma LoginRest(s0: State, s: State, cleared: State, a: AgentId, p: PlayerId)
    requires Reaches(s0, cleared) && p in s.owner && s.owner[p] !in s.locks
    requires cleared == State(s.agents[a := Agent(p, Cleared, false, false)], s.registry - {p},
                              s.locks[s.owner[p] := a], s.owner, s.stopping)
    ensures Reaches(s0, Joined(s, a, p))
  {
    var t := OneStep(s0, cleared, Link(a));
    assert t.agents == s.agents[a := Agent(p, Linked, true, false)];
    t := OneStep(s0, t, Publish(a));
    assert t.agents == s.agents[a := Agent(p, Published, true, false)];
    assert t.registry == s.registry[p := a];
    LoginEnd(s0, s, t, a, p);
  }

  lemma LoginEnd(s0: State, s: State, published: State, a: AgentId, p: PlayerId)
    requires Reaches(s0, published) && p in s.owner && s.owner[p] !in s.locks
    requires published == State(s.agents[a := Agent(p, Published, true, false)], s.registry[p := a],
                                s.locks[s.owner[p] := a], s.owner, s.stopping)
    ensures Reaches(s0, Joined(s, a, p))
  {
    var t := OneStep(s0, published, Finish(a));
    assert t.agents == s.agents[a := Agent(p, Done, true, false)];
    assert t.locks == s.locks;
  }

  // ----- what a harmful clean-up leads to -----

  /** What a handler would do next, if everything it depends on fails from now on. */
  function NextStep(s: State, h: AgentId): Step
    requires h in s.agents && HoldsLock(s.agents[h].phase)
  {
    match s.agents[h].phase
    case Locked => LookUp(h)
    case Looked(found) => if found.Some? then Unregister(h) else SkipOther(h)
    case Unregistered(_) => StopOther(h)
    case Cleared => GiveUp(h)
    case Linked => Publish(h)
    case Published => Finish(h)
    case _ => StopSelf(h)
  }

  function Remaining(phase: Phase): nat {
    match phase
    case Locked => 5
    case Looked(_) => 4
    case Unregistered(_) => 3
    case Cleared => 2
    case Linked => 2
    case _ => 1
  }

  /** Agent `x` is live without an entry, and no handler is about to stop it. */
  predicate Forgotten(s: State, x: AgentId) {
    && Live(s, x) && s.agents[x].player in s.owner && s.agents[x].player !in s.registry
    && (s.agents[x].phase.Published? || s.agents[x].phase.Done?)
  }

  /** Handler `h` holds the login lock of the account of `x` and has no business with the player
      of `x`. */
  ghost predicate Busy(s: State, h: AgentId, x: AgentId)
    requires Forgotten(s, x)
  {
    && h in s.agents && HoldsLock(s.agents[h].phase) && HoldsItsLock(s, h)
    && s.owner[s.agents[h].player] == s.owner[s.agents[x].player]
    && (h == x || s.agents[h].player != s.agents[x].player)
    && (forall q | q in s.registry :: s.registry[q] in s.agents && s.agents[s.registry[q]].player == q)
    && match s.agents[h].phase
       case Looked(found) =>
         found.Some? ==> found.value in s.agents && s.agents[found.value].player == s.agents[h].player
       case Unregistered(other) => other in s.agents && s.agents[other].player == s.agents[h].player
       case _ => true
  }

  lemma EnabledNext(s: State, h: AgentId, x: AgentId)
    requires Forgotten(s, x) && Busy(s, h, x)
    ensures Enabled(s, NextStep(s, h)) && Harmless(s, NextStep(s, h))
  {
  }

  lemma LeavesForgotten(s: State, h: AgentId, x: AgentId)
    requires Forgotten(s, x) && Busy(s, h, x) && Enabled(s, NextStep(s, h))
    ensures var t := Apply(s, NextStep(s, h));
            Forgotten(t, x) && t.owner == s.owner && t.agents[x].player == s.agents[x].player
  {
  }

  lemma ReleasesOwn(s: State, h: AgentId, x: AgentId)
    requires Forgotten(s, x) && Busy(s, h, x) && Enabled(s, NextStep(s, h)) && Releases(NextStep(s, h))
    ensures s.owner[s.agents[x].player] !in Apply(s, NextStep(s, h)).locks
  {
  }

  lemma PublishGoesOn(s: State, h: AgentId, x: AgentId)
    requires Forgotten(s, x) && Busy(s, h, x) && Enabled(s, NextStep(s, h)) && s.agents[h].phase.Linked?
    requires Forgotten(Apply(s, NextStep(s, h)), x)
    ensures var t := Apply(s, NextStep(s, h));
            Busy(t, h, x) && Remaining(t.agents[h].phase) < Remaining(s.agents[h].phase)
  {
  }

  lemma TakeOverGoesOn(s: State, h: AgentId, x: AgentId)
    requires Forgotten(s, x) && Busy(s, h, x) && Enabled(s, NextStep(s, h))
    requires Unlinked(NextStep(s, h)) && !Releases(NextStep(s, h)) && Forgotten(Apply(s, NextStep(s, h)), x)
    ensures var t := Apply(s, NextStep(s, h));
            Busy(t, h, x) && Remaining(t.agents[h].phase) < Remaining(s.agents[h].phase)
  {
    assert h != x;
  }

  lemma GoesOn(s: State, h: AgentId, x: AgentId)
    requires Forgotten(s, x) && Busy(s, h, x) && Enabled(s, NextStep(s, h))
    requires Forgotten(Apply(s, NextStep(s, h)), x)
    ensures var t := Apply(s, NextStep(s, h));
            || s.owner[s.agents[x].player] !in t.locks
            || (Busy(t, h, x) && Remaining(t.agents[h].phase) < Remaining(s.agents[h].phase))
  {
    if Releases(NextStep(s, h)) {
      ReleasesOwn(s, h, x);
    } else if s.agents[h].phase.Linked? {
      PublishGoesOn(s, h, x);
    } else {
      TakeOverGoesOn(s, h, x);
    }
  }

  /** The handler finishes and releases the lock. */
  lemma {:induction false} Release(s0: State, s: State, h: AgentId, x: AgentId) returns (t: State)
    requires Reaches(s0, s) && Forgotten(s, x) && Busy(s, h, x)
    ensures Reaches(s0, t) && Forgotten(t, x) && t.agents[x].player == s.agents[x].player
    ensures t.owner == s.owner && t.owner[t.agents[x].player] !in t.locks
    decreases Remaining(s.agents[h].phase)
  {
    EnabledNext(s, h, x);
    LeavesForgotten(s, h, x);
    GoesOn(s, h, x);
    t := OneStep(s0, s, NextStep(s, h));
    if t.owner[t.agents[x].player] in t.locks {
      t := Release(s0, t, h, x);
    }
  }

  lemma {:induction false} UpperBound(ids: set<AgentId>) returns (bound: nat)
    ensures forall a | a in ids :: a < bound
    decreases |ids|
  {
    if ids == {} {
      bound := 0;
    } else {
      var a :| a in ids;
      bound := UpperBound(ids - {a});
      bound := if a < bound then bound else a + 1;
      assert forall b | b in ids :: b == a || b in ids - {a};
    }
  }

  /** With the lock free, the next login for the player of a forgotten agent succeeds beside it. */
  lemma NextLoginDoubles(s0: State, s: State, x: AgentId)
    requires Reaches(s0, s) && Forgotten(s, x) && s.owner[s.agents[x].player] !in s.locks
    ensures exists t :: Reaches(s0, t) && TwoLive(t)
  {
    var a := UpperBound(s.agents.Keys);
    var p := s.agents[x].player;
    Login(s0, s, a, p);
    assert Live(Joined(s, a, p), a) && Live(Joined(s, a, p), x);
  }

  /** A login for the player of a forgotten agent that has not looked yet finds nobody to stop. */
  lemma PendingLoginDoubles(s0: State, s: State, h: AgentId, x: AgentId)
    requires Reaches(s0, s) && Forgotten(s, x) && At(s, h, Locked)
    requires s.agents[h].player == s.agents[x].player && !s.agents[h].stopped
    ensures exists t :: Reaches(s0, t) && TwoLive(t)
  {
    var t := OneStep(s0, s, LookUp(h));
    t := OneStep(s0, t, SkipOther(h));
    t := OneStep(s0, t, Link(h));
    assert Live(t, h) && Live(t, x);
  }

  lemma NobodyLooked(s: State, b: AgentId, h: AgentId)
    requires b in s.agents && s.agents[b].player in s.registry && !HarmlessCleanUp(s, b)
    ensures !At(s, h, Looked(Some(s.registry[s.agents[b].player])))
  {
  }

  /** Who holds the lock at the moment of a harmful clean-up. */
  lemma HolderAtHarm(s: State, b: AgentId, h: AgentId)
    requires Inv(s) && Enabled(s, FinishStop(b)) && !HarmlessCleanUp(s, b)
    requires s.owner[s.agents[b].player] in s.locks && h == s.locks[s.owner[s.agents[b].player]]
    ensures var p, x, t := s.agents[b].player, s.registry[s.agents[b].player], Apply(s, FinishStop(b));
            && Forgotten(t, x)
            && (Busy(t, h, x) || (At(t, h, Locked) && t.agents[h].player == p && !t.agents[h].stopped))
  {
    var p := s.agents[b].player;
    var x, t := s.registry[p], Apply(s, FinishStop(b));
    assert EntryLive(s, p) && OwnsLock(s, s.owner[p]) && Knows(s, h) && HoldsItsLock(s, h);
    assert forall q | q in t.registry :: q in s.registry && EntryLive(s, q);
    assert t.agents == s.agents && t.locks == s.locks && t.owner == s.owner;
    if s.agents[h].player == p && h != x {
      NobodyLooked(s, b, h);
      assert At(s, h, Locked);
    } else {
      assert HoldsItsLock(t, h);
      assert s.agents[h].phase.Looked? || s.agents[h].phase.Unregistered? ==> h != x;
    }
  }

  lemma HarmfulCleanUpDoubles(s: State, b: AgentId)
    requires Inv(s) && Enabled(s, FinishStop(b)) && !HarmlessCleanUp(s, b)
    ensures exists t :: Reaches(Apply(s, FinishStop(b)), t) && TwoLive(t)
  {
    var p := s.agents[b].player;
    var x, t := s.registry[p], Apply(s, FinishStop(b));
    assert EntryLive(s, p);
    ReachesSelf(t);
    if s.owner[p] !in s.locks {
      NextLoginDoubles(t, t, x);
    } else {
      var h := s.locks[s.owner[p]];
      HolderAtHarm(s, b, h);
      if Busy(t, h, x) {
        var u := Release(t, t, h, x);
        NextLoginDoubles(t, u, x);
      } else {
        PendingLoginDoubles(t, t, h, x);
      }
    }
  }

  /** The clean-up of a stop can lead to two live agents for one player exactly when it removes the
      entry of a live agent that no login is about to stop. */
  lemma LateCleanUpIff(s: State, b: AgentId)
    requires Inv(s) && Enabled(s, FinishStop(b))
    ensures (exists t :: Reaches(Apply(s, FinishStop(b)), t) && TwoLive(t)) <==> !HarmlessCleanUp(s, b)
  {
    if HarmlessCleanUp(s, b) {
      InvStep(s, FinishStop(b));
      forall t | Reaches(Apply(s, FinishStop(b)), t) ensures !TwoLive(t) {
        var states, steps :| RunsTo(Apply(s, FinishStop(b)), t, states, steps);
        InvRun(states, steps);
        NoTwoLive(t);
      }
    } else {
      HarmfulCleanUpDoubles(s, b);
    }
  }

  /** Harmful clean-ups happen: a stop is half done when the player logs in again. One of them is
      all it takes. */
  lemma SplitStopLetsTwoAgentsLive(p: PlayerId, u: Uid) returns (s0: State, s: State, t: State)
    ensures Init(s0) && Reaches(s0, s) && Enabled(s, FinishStop(0)) && !HarmlessCleanUp(s, 0)
    ensures Reaches(Apply(s, FinishStop(0)), t) && TwoLive(t)
  {
    s0, s := HalfStoppedPredecessor(p, u);
    InitInv(s0);
    var states, steps :| RunsTo(s0, s, states, steps);
    InvRun(states, steps);
    LateCleanUpIff(s, 0);
    t :| Reaches(Apply(s, FinishStop(0)), t) && TwoLive(t);
  }

  lemma HalfStoppedPredecessor(p: PlayerId, u: Uid) returns (s0: State, s: State)
    ensures Init(s0) && Reaches(s0, s) && Enabled(s, FinishStop(0)) && !HarmlessCleanUp(s, 0)
  {
    s0 := State(map[], map[], map[], map[p := u], {});
    ReachesSelf(s0);
    Login(s0, s0, 0, p);
    var begun := OneStep(s0, Joined(s0, 0, p), BeginStop(0));
    assert begun.agents == map[0 := Agent(p, Done, true, true)];
    Login(s0, begun, 1, p);
    s := Joined(begun, 1, p);
    assert s.agents == map[0 := Agent(p, Done, true, true), 1 := Agent(p, Done, true, false)];
  }

  // ----- a second login on one connection -----

  /** A second login for the same player finds the connection itself, stops it, and registers it. */
  lemma SecondLoginRegistersAStoppedAgent(s: State, a: AgentId) returns (t: State)
    requires Inv(s) && Live(s, a) && Registered(s, a) && s.agents[a].phase.Done?
    requires s.agents[a].player in s.owner && s.owner[s.agents[a].player] !in s.locks
    ensures Reaches(SetPhase(s, a, Idle), t)
    ensures a in t.agents && t.agents[a].stopped && Registered(t, a) && t.agents[a].player == s.agents[a].player
  {
    var s0, p := SetPhase(s, a, Idle), s.agents[a].player;
    ReachesSelf(s0);
    t := OneStep(s0, s0, TakeLock(a, p));
    t := OneStep(s0, t, LookUp(a));
    assert t.agents[a] == Agent(p, Looked(Some(a)), true, false);
    t := OneStep(s0, t, Unregister(a));
    t := OneStep(s0, t, StopOther(a));
    assert t.agents[a] == Agent(p, Cleared, true, true);
    t := OneStep(s0, t, Link(a));
    t := OneStep(s0, t, Publish(a));
  }

  /** A second login for another player leaves the entry of the first player behind: it names an
      agent that serves the second one. */
  lemma SecondLoginLeavesAStaleEntry(s: State, a: AgentId, q: PlayerId) returns (t: State)
    requires Inv(s) && Live(s, a) && Registered(s, a) && s.agents[a].phase.Done?
    requires q != s.agents[a].player && q in s.owner && s.owner[q] !in s.locks
    ensures Reaches(SetPhase(s, a, Idle), t)
    ensures Live(t, a) && t.agents[a].player == q && Registered(t, a)
    ensures s.agents[a].player in t.registry && t.registry[s.agents[a].player] == a
  {
    var s0, p := SetPhase(s, a, Idle), s.agents[a].player;
    t := SecondTakeOver(s, a, q);
    t := OneStep(s0, t, Link(a));
    t := OneStep(s0, t, Publish(a));
    t := OneStep(s0, t, Finish(a));
  }

  lemma SecondTakeOver(s: State, a: AgentId, q: PlayerId) returns (t: State)
    requires Inv(s) && Live(s, a) && Registered(s, a) && s.agents[a].phase.Done?
    requires q != s.agents[a].player && q in s.owner && s.owner[q] !in s.locks
    ensures Reaches(SetPhase(s, a, Idle), t) && t.owner == s.owner
    ensures a in t.agents && t.agents[a] == Agent(q, Cleared, true, false)
    ensures s.agents[a].player in t.registry && t.registry[s.agents[a].player] == a
  {
    var s0, p := SetPhase(s, a, Idle), s.agents[a].player;
    ReachesSelf(s0);
    t := OneStep(s0, s0, TakeLock(a, q));
    t := OneStep(s0, t, LookUp(a));
    assert t.agents == s.agents[a := Agent(q, Looked(GetAgent(s, q)), true, false)];
    if q in s.registry {
      t := StopPredecessor(s, s0, t, a, q);
    } else {
      t := OneStep(s0, t, SkipOther(a));
    }
  }

  lemma StopPredecessor(s: State, s0: State, looked: State, a: AgentId, q: PlayerId) returns (t: State)
    requires Inv(s) && Live(s, a) && Registered(s, a) && q != s.agents[a].player && q in s.registry
    requires Reaches(s0, looked) && looked.registry == s.registry
    requires looked.agents == s.agents[a := Agent(q, Looked(Some(s.registry[q])), true, false)]
    ensures Reaches(s0, t) && t.owner == looked.owner
    ensures a in t.agents && t.agents[a] == Agent(q, Cleared, true, false)
    ensures s.agents[a].player in t.registry && t.registry[s.agents[a].player] == a
  {
    assert EntryLive(s, q);
    t := OneStep(s0, looked, Unregister(a));
    t := OneStep(s0, t, StopOther(a));
  }
}
