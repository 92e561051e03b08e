/** What a request for a character is answered, and what it leaves behind: in terms of the steps of
    the run alone. */
module CharacterAnswers {
  import opened CharacterCreation
  import opened LeaseExpiry

  // ----- answers -----

  /** The step makes the request fail: an error on the way, or an insert that reports one. */
  predicate Fails(e: Step, r: RequestId) {
    e == Fail(r) || (e.Insert? && e.r == r && !e.outcome.Stored?)
  }

  predicate IsReturned(s: State, r: RequestId) {
    r in s.requests && s.requests[r].phase.Returned?
  }

  predicate IsFailed(s: State, r: RequestId) {
    r in s.requests && s.requests[r].phase.Failed?
  }

  lemma AnswerStep(s: State, e: Step, r: RequestId)
    requires Enabled(s, e)
    ensures IsReturned(Apply(s, e), r) <==> IsReturned(s, r) || e == BindAndReturn(r)
    ensures IsFailed(Apply(s, e), r) <==> IsFailed(s, r) || Fails(e, r)
  {
  }

  /** A request is answered with an id exactly when it got as far as binding the id, and with an
      error exactly when some step of it failed. */
  lemma {:induction false} AnsweredIff(states: seq<State>, steps: seq<Step>, r: RequestId)
    requires IsRun(states, steps) && Init(states[0])
    ensures IsReturned(states[|steps|], r) <==> exists n | 0 <= n < |steps| :: steps[n] == BindAndReturn(r)
    ensures IsFailed(states[|steps|], r) <==> exists n | 0 <= n < |steps| :: Fails(steps[n], r)
    decreases |steps|
  {
    if steps != [] {
      var m := |steps| - 1;
      var run := steps[..m];
      AnsweredIff(states[..m + 1], run, r);
      AnswerStep(states[m], steps[m], r);
      assert forall n | 0 <= n < m :: run[n] == steps[n];
    }
  }

  // ----- ids -----

  /** The request drew this id at step `n`. */
  predicate DrewAt(states: seq<State>, steps: seq<Step>, r: RequestId, n: int, id: nat) {
    0 <= n < |steps| && n < |states| && steps[n] == GenerateId(r) && id == states[n].counter + 1
  }

  lemma IdStep(s: State, e: Step, r: RequestId)
    requires Enabled(s, e) && r in Apply(s, e).requests && HasOwnId(Apply(s, e).requests[r].phase)
    ensures var id := Apply(s, e).requests[r].phase.id;
            || (e == GenerateId(r) && id == s.counter + 1)
            || (r in s.requests && HasOwnId(s.requests[r].phase) && s.requests[r].phase.id == id)
  {
  }

  /** The id that a request inserts and returns is the one it drew from the counter. */
  lemma {:induction false} IdWasDrawn(states: seq<State>, steps: seq<Step>, r: RequestId)
    requires IsRun(states, steps) && Init(states[0])
    requires r in states[|steps|].requests && HasOwnId(states[|steps|].requests[r].phase)
    ensures exists n :: DrewAt(states, steps, r, n, states[|steps|].requests[r].phase.id)
    decreases |steps|
  {
    var m := |steps| - 1;
    var id := states[|steps|].requests[r].phase.id;
    IdStep(states[m], steps[m], r);
    if steps[m] == GenerateId(r) && id == states[m].counter + 1 {
      assert DrewAt(states, steps, r, m, id);
    } else {
      var before, run := states[..m + 1], steps[..m];
      IdWasDrawn(before, run, r);
      var n :| DrewAt(before, run, r, n, id);
      assert DrewAt(states, steps, r, n, id);
    }
  }

  // ----- the collection -----

  /** The step puts character `c` into the collection. */
  predicate Inserts(s: State, e: Step, c: Character)
    requires Enabled(s, e)
  {
    e.Insert? && !e.outcome.Rejected?
    && c == Character(s.requests[e.r].phase.id, s.requests[e.r].account, s.requests[e.r].server)
  }

  lemma CollectionStep(s: State, e: Step, c: Character)
    requires Enabled(s, e)
    ensures c in Apply(s, e).characters <==> c in s.characters || Inserts(s, e, c)
  {
  }

  /** A character is stored exactly when it was before, or an insert of a request with that id,
      account and server took effect. */
  lemma {:induction false} StoredIff(states: seq<State>, steps: seq<Step>, c: Character)
    requires IsRun(states, steps)
    ensures c in states[|steps|].characters <==>
            c in states[0].characters || exists n | 0 <= n < |steps| :: Inserts(states[n], steps[n], c)
    decreases |steps|
  {
    if steps != [] {
      var m := |steps| - 1;
      var before, run := states[..m + 1], steps[..m];
      StoredIff(before, run, c);
      CollectionStep(states[m], steps[m], c);
      assert forall n | 0 <= n < m :: before[n] == states[n] && run[n] == steps[n];
    }
  }

  // ----- locks -----

  /** The request has the lock and has not been answered. */
  predicate Working(phase: Phase) {
    !phase.Arrived? && !phase.Returned? && !phase.Failed?
  }

  predicate HeldByWorking(s: State, account: AccountId)
    requires account in s.locks
  {
    s.locks[account] in s.requests && Working(s.requests[s.locks[account]].phase)
    && s.requests[s.locks[account]].account == account
  }

  lemma LockStep(s: State, e: Step, account: AccountId)
    requires Enabled(s, e) && account in Apply(s, e).locks && (account in s.locks ==> HeldByWorking(s, account))
    ensures HeldByWorking(Apply(s, e), account)
  {
  }

  /** No lock outlives its request: whoever was answered, with an id or with an error, holds none. */
  lemma {:induction false} LocksAreReleased(states: seq<State>, steps: seq<Step>)
    requires IsRun(states, steps) && Init(states[0])
    ensures forall account | account in states[|steps|].locks :: HeldByWorking(states[|steps|], account)
    decreases |steps|
  {
    if steps != [] {
      var m := |steps| - 1;
      LocksAreReleased(states[..m + 1], steps[..m]);
      var t := states[m + 1];
      forall account | account in t.locks ensures HeldByWorking(t, account) {
        LockStep(states[m], steps[m], account);
      }
    }
  }

  // ----- a request that nothing disturbs -----

  /** For an account with a free lock and below both caps, a new request that is not disturbed
      stores one character, binds it to its server, releases the lock and returns its id. */
  lemma UndisturbedCreation(s: State, q: RequestId, a: AccountId, v: ServerId) returns (t: State)
    requires IdsUnique(s) && q !in s.requests && a !in s.locks
    requires |OfAccount(s.characters, a)| < 2 && |OnServer(s.characters, a, v)| < 2
    ensures Reaches(s, t) && IsReturned(t, q)
    ensures var id := t.requests[q].phase.id;
            && id == s.counter + 1
            && t.characters == s.characters + {Character(id, a, v)} && Character(id, a, v) !in s.characters
            && id in t.actorServer && t.actorServer[id] == v && a !in t.locks
  {
    ReachesSelf(s);
    t := Prepare(s, s, q, a, v);
    t := OneStep(s, t, Insert(q, Stored));
    t := OneStep(s, t, BindAndReturn(q));
  }
}
