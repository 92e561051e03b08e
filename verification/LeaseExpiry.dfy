/** Character creation when a lease may expire at any moment: when the caps still hold, and which
    expiries can break them. */
module LeaseExpiry {
  import opened CharacterCreation

  // ----- caps without any lock -----

  predicate Stores(e: Step) {
    e.Insert? && !e.outcome.Rejected?
  }

  /** The request has counted and not inserted yet. */
  predicate Counting(phase: Phase) {
    phase.Counted? || phase.Checked? || phase.Refreshed? || phase.HasId?
  }

  /** Step `m` stores a character of the account of `r` for another request, while `r` is between
      its counts and its insert. */
  ghost predicate DisturbedAt(states: seq<State>, steps: seq<Step>, m: int, r: RequestId)
    requires IsRun(states, steps)
  {
    && 0 <= m < |steps| && Stores(steps[m]) && steps[m].r != r
    && r in states[m].requests && Counting(states[m].requests[r].phase)
    && states[m].requests[steps[m].r].account == states[m].requests[r].account
  }

  /** No request stores a character after it was disturbed. */
  ghost predicate Undisturbed(states: seq<State>, steps: seq<Step>)
    requires IsRun(states, steps)
  {
    forall m, n | 0 <= m < n < |steps| && Stores(steps[n]) :: !DisturbedAt(states, steps, m, steps[n].r)
  }

  /** What the request counted is still exact, whoever holds the lock. */
  predicate Fresh(s: State, r: RequestId)
    requires r in s.requests
  {
    var me := s.requests[r];
    match me.phase
    case Counted(total) => total == |OfAccount(s.characters, me.account)| < MAX_PER_ACCOUNT
    case Checked(total, onServer) => InsertSafe(s, me, total, onServer)
    case Refreshed(total, onServer) => InsertSafe(s, me, total, onServer)
    case HasId(total, onServer, _) => InsertSafe(s, me, total, onServer)
    case _ => true
  }

  lemma StoredCounts(s: State, e: Step, a: AccountId, v: ServerId)
    requires Enabled(s, e) && Stores(e)
    ensures var me, t := s.requests[e.r], Apply(s, e);
            && |OfAccount(t.characters, a)| <= |OfAccount(s.characters, a)| + (if me.account == a then 1 else 0)
            && |OnServer(t.characters, a, v)|
               <= |OnServer(s.characters, a, v)| + (if me.account == a && me.server == v then 1 else 0)
            && (me.account != a ==> |OfAccount(t.characters, a)| == |OfAccount(s.characters, a)|
                                    && |OnServer(t.characters, a, v)| == |OnServer(s.characters, a, v)|)
  {
    var me := s.requests[e.r];
    var c := Character(me.phase.id, me.account, me.server);
    if c in s.characters {
      assert s.characters + {c} == s.characters;
    } else {
      InsertCounts(s.characters, c, a, v);
    }
  }

  lemma MoverFresh(s: State, e: Step)
    requires Enabled(s, e) && !e.Expire? && !e.ExpireAnywhere? && (e.r in s.requests ==> Fresh(s, e.r))
    ensures e.r in Apply(s, e).requests && Fresh(Apply(s, e), e.r)
  {
  }

  lemma BystanderFresh(s: State, e: Step, t: State, r: RequestId)
    requires Enabled(s, e) && t == Apply(s, e) && Frame(s, e, t)
    requires r in s.requests && r in t.requests && t.requests[r] == s.requests[r] && Fresh(s, r)
    requires Stores(e) ==> s.requests[e.r].account != s.requests[r].account || !Counting(s.requests[r].phase)
    ensures Fresh(t, r)
  {
    if Stores(e) {
      StoredCounts(s, e, s.requests[r].account, s.requests[r].server);
    } else {
      assert t.characters == s.characters;
    }
  }

  /** The counts of a request are exact unless it was disturbed. */
  lemma {:induction false} FreshOrDisturbed(states: seq<State>, steps: seq<Step>, r: RequestId)
    requires IsRun(states, steps) && Init(states[0]) && r in states[|steps|].requests
    ensures Fresh(states[|steps|], r) || exists m :: DisturbedAt(states, steps, m, r)
    decreases |steps|
  {
    if steps != [] {
      var n := |steps| - 1;
      var s, e, t := states[n], steps[n], states[n + 1];
      StepFrame(s, e);
      if r in s.requests {
        var before, run := states[..n + 1], steps[..n];
        FreshOrDisturbed(before, run, r);
        if Fresh(s, r) {
          FreshStep(states, steps, r);
        } else {
          var m :| DisturbedAt(before, run, m, r);
          assert DisturbedAt(states, steps, m, r);
        }
      } else {
        MoverFresh(s, e);
      }
    }
  }

  lemma FreshStep(states: seq<State>, steps: seq<Step>, r: RequestId)
    requires IsRun(states, steps) && steps != []
    requires var s := states[|steps| - 1]; r in s.requests && Fresh(s, r)
    requires r in states[|steps|].requests
    ensures Fresh(states[|steps|], r) || DisturbedAt(states, steps, |steps| - 1, r)
  {
    var n := |steps| - 1;
    var s, e := states[n], steps[n];
    StepFrame(s, e);
    if !e.Expire? && !e.ExpireAnywhere? && e.r == r {
      MoverFresh(s, e);
    } else if !DisturbedAt(states, steps, n, r) {
      BystanderFresh(s, e, states[n + 1], r);
    }
  }

  lemma FreshInsertKeepsCaps(s: State, e: Step)
    requires CapsHold(s.characters) && Enabled(s, e) && Stores(e) && Fresh(s, e.r)
    ensures CapsHold(Apply(s, e).characters)
  {
    var me, t := s.requests[e.r], Apply(s, e);
    forall a ensures |OfAccount(t.characters, a)| <= MAX_PER_ACCOUNT {
      StoredCounts(s, e, a, me.server);
    }
    forall a, v ensures |OnServer(t.characters, a, v)| <= MAX_PER_SERVER {
      StoredCounts(s, e, a, v);
    }
  }

  /** Whatever happens to the leases, a cap can only be exceeded by a request that stores its
      character although another request stored one of the same account after it counted. */
  lemma {:induction false} CapsHoldUndisturbed(states: seq<State>, steps: seq<Step>)
    requires IsRun(states, steps) && Init(states[0]) && Undisturbed(states, steps)
    ensures CapsHold(states[|steps|].characters)
    decreases |steps|
  {
    if steps != [] {
      var n := |steps| - 1;
      var before, run := states[..n + 1], steps[..n];
      assert forall m, r :: DisturbedAt(before, run, m, r) ==> DisturbedAt(states, steps, m, r);
      assert forall m | 0 <= m < n :: run[m] == steps[m];
      assert Undisturbed(before, run);
      CapsHoldUndisturbed(before, run);
      if Stores(steps[n]) {
        FreshOrDisturbed(before, run, steps[n].r);
        FreshInsertKeepsCaps(states[n], steps[n]);
      } else {
        StepFrame(states[n], steps[n]);
      }
    }
  }

  // ----- runs after which nothing expires too late -----

  ghost predicate RunsTo(s: State, t: State, states: seq<State>, steps: seq<Step>) {
    && IsRun(states, steps) && states[0] == s && states[|steps|] == t
    && forall n | 0 <= n < |steps| :: !steps[n].ExpireAnywhere?
  }

  /** A run in which no lease expires between a refresh and its insert leads from `s` to `t`. */
  ghost predicate Reaches(s: State, t: State) {
    exists states, steps :: RunsTo(s, t, states, steps)
  }

  lemma ReachesSelf(s: State)
    ensures Reaches(s, s)
  {
    assert RunsTo(s, s, [s], []);
  }

  /** One more step, with what it says about ids. */
  lemma OneStep(s: State, t: State, e: Step) returns (u: State)
    requires Reaches(s, t) && Enabled(t, e) && !e.ExpireAnywhere?
    ensures u == Apply(t, e) && Reaches(s, u) && (IdsUnique(t) ==> IdsUnique(u))
  {
    u := Apply(t, e);
    var states, steps :| RunsTo(s, t, states, steps);
    assert RunsTo(s, u, states + [u], steps + [e]);
    StepFrame(t, e);
    if IdsUnique(t) {
      IdsStep(t, e, u);
    }
  }

  // ----- what a late expiry leads to -----

  /** Request `r` is about to insert without holding the lock, which is free. */
  predicate Overtaken(t: State, r: RequestId, a: AccountId, v: ServerId) {
    && r in t.requests && t.requests[r].phase.HasId? && t.requests[r].account == a && t.requests[r].server == v
    && a !in t.locks
  }

  lemma AtMostOfAccount(characters: set<Character>, a: AccountId, v: ServerId)
    ensures |OnServer(characters, a, v)| <= |OfAccount(characters, a)|
  {
    assert OnServer(characters, a, v) <= OfAccount(characters, a);
    SubsetSize(OnServer(characters, a, v), OfAccount(characters, a));
  }

  lemma {:induction false} SubsetSize(a: set<Character>, b: set<Character>)
    requires a <= b
    ensures |a| <= |b|
    decreases |a|
  {
    if a != {} {
      var c :| c in a;
      SubsetSize(a - {c}, b - {c});
    }
  }

  lemma {:induction false} UpperBound(ids: set<RequestId>) returns (bound: nat)
    ensures forall r | r in ids :: r < bound
    decreases |ids|
  {
    if ids == {} {
      bound := 0;
    } else {
      var r :| r in ids;
      bound := UpperBound(ids - {r});
      bound := if r < bound then bound else r + 1;
      assert forall q | q in ids :: q == r || q in ids - {r};
    }
  }

  /** A new request up to the point where it has the lock. */
  lemma Lock(s: State, t: State, q: RequestId, a: AccountId, v: ServerId) returns (u: State)
    requires Reaches(s, t) && IdsUnique(t) && q !in t.requests && a !in t.locks
    ensures Reaches(s, u) && IdsUnique(u)
    ensures u == t.(requests := t.requests[q := Request(a, v, Locked)], locks := t.locks[a := q])
  {
    u := OneStep(s, t, Arrive(q, a, v));
    u := OneStep(s, u, TakeLock(q));
    assert u.requests == t.requests[q := Request(a, v, Locked)];
  }

  /** A new request up to the point where its checks have passed. */
  lemma Check(s: State, t: State, q: RequestId, a: AccountId, v: ServerId) returns (u: State)
    requires Reaches(s, t) && IdsUnique(t) && q !in t.requests && a !in t.locks
    requires |OfAccount(t.characters, a)| < MAX_PER_ACCOUNT && |OnServer(t.characters, a, v)| < MAX_PER_SERVER
    ensures Reaches(s, u) && IdsUnique(u)
    ensures var checked := Checked(|OfAccount(t.characters, a)|, |OnServer(t.characters, a, v)|);
            u == t.(requests := t.requests[q := Request(a, v, checked)], locks := t.locks[a := q])
  {
    u := Lock(s, t, q, a, v);
    u := OneStep(s, u, CountAll(q));
    var counted := Counted(|OfAccount(t.characters, a)|);
    assert u.requests == t.requests[q := Request(a, v, counted)];
    u := CheckServer(s, t, u, q, a, v);
  }

  lemma CheckServer(s: State, t: State, counted: State, q: RequestId, a: AccountId, v: ServerId) returns (u: State)
    requires Reaches(s, counted) && IdsUnique(counted) && |OnServer(t.characters, a, v)| < MAX_PER_SERVER
    requires counted == t.(requests := t.requests[q := Request(a, v, Counted(|OfAccount(t.characters, a)|))],
                           locks := t.locks[a := q])
    ensures Reaches(s, u) && IdsUnique(u)
    ensures var checked := Checked(|OfAccount(t.characters, a)|, |OnServer(t.characters, a, v)|);
            u == t.(requests := t.requests[q := Request(a, v, checked)], locks := t.locks[a := q])
  {
    u := OneStep(s, counted, CountOnServer(q));
    var checked := Checked(|OfAccount(t.characters, a)|, |OnServer(t.characters, a, v)|);
    assert u.requests == t.requests[q := Request(a, v, checked)];
  }

  /** A new request up to the point where its id is generated, for an account that may take one
      more; nobody else is touched. */
  lemma Prepare(s: State, t: State, q: RequestId, a: AccountId, v: ServerId) returns (u: State)
    requires Reaches(s, t) && IdsUnique(t) && q !in t.requests && a !in t.locks
    requires |OfAccount(t.characters, a)| < MAX_PER_ACCOUNT && |OnServer(t.characters, a, v)| < MAX_PER_SERVER
    ensures Reaches(s, u) && IdsUnique(u)
    ensures q in u.requests && u.requests[q].phase.HasId? && u.requests[q].phase.id == t.counter + 1
    ensures u.requests[q].account == a && u.requests[q].server == v && u.actorServer == t.actorServer
    ensures u.characters == t.characters && u.locks == t.locks[a := q]
    ensures forall r | r in t.requests :: r in u.requests && u.requests[r] == t.requests[r]
  {
    u := Check(s, t, q, a, v);
    u := OneStep(s, u, Refresh(q));
    u := OneStep(s, u, GenerateId(q));
  }

  /** A whole creation beside an overtaken request. */
  lemma CreateOne(s: State, t: State, r: RequestId, a: AccountId, v: ServerId) returns (u: State)
    requires Reaches(s, t) && IdsUnique(t) && Overtaken(t, r, a, v) && |OfAccount(t.characters, a)| == 0
    ensures Reaches(s, u) && IdsUnique(u) && Overtaken(u, r, a, v) && |OfAccount(u.characters, a)| == 1
  {
    var q := UpperBound(t.requests.Keys);
    AtMostOfAccount(t.characters, a, v);
    u := Prepare(s, t, q, a, v);
    StoreOne(u, q, a, v);
    u := OneStep(s, u, Insert(q, Stored));
    u := OneStep(s, u, BindAndReturn(q));
  }

  /** A character with a generated id is new. */
  lemma StoreOne(u: State, q: RequestId, a: AccountId, v: ServerId)
    requires IdsUnique(u) && q in u.requests && u.requests[q].phase.HasId?
    requires u.requests[q].account == a && u.requests[q].server == v
    ensures |OfAccount(Apply(u, Insert(q, Stored)).characters, a)| == |OfAccount(u.characters, a)| + 1
  {
    InsertCounts(u.characters, Character(u.requests[q].phase.id, a, v), a, v);
  }

  /** With one character stored, a second request passes its checks, and then both insert. */
  lemma CreateTwo(s: State, t: State, r: RequestId, a: AccountId, v: ServerId) returns (u: State)
    requires Reaches(s, t) && IdsUnique(t) && Overtaken(t, r, a, v) && |OfAccount(t.characters, a)| == 1
    ensures Reaches(s, u) && |OfAccount(u.characters, a)| == MAX_PER_ACCOUNT + 1
  {
    var q := UpperBound(t.requests.Keys);
    AtMostOfAccount(t.characters, a, v);
    u := Prepare(s, t, q, a, v);
    StoreOne(u, r, a, v);
    u := OneStep(s, u, Insert(r, Stored));
    StoreOne(u, q, a, v);
    u := OneStep(s, u, Insert(q, Stored));
  }

  lemma LateExpiryBreaksTheCap(s: State, a: AccountId) returns (t: State)
    requires Inv(s) && a in s.locks && s.locks[a] in s.requests && Inserting(s.requests[s.locks[a]].phase)
    ensures Reaches(Apply(s, ExpireAnywhere(a)), t) && !CapsHold(t.characters)
  {
    var s0, r := Apply(s, ExpireAnywhere(a)), s.locks[a];
    var v := s.requests[r].server;
    assert LockOwned(s, a) && CountsExact(s, r);
    StepFrame(s, ExpireAnywhere(a));
    IdsStep(s, ExpireAnywhere(a), s0);
    ReachesSelf(s0);
    t := s0;
    if s0.requests[r].phase.Refreshed? {
      t := OneStep(s0, t, GenerateId(r));
    }
    if |OfAccount(t.characters, a)| == 0 {
      t := CreateOne(s0, t, r, a, v);
    }
    t := CreateTwo(s0, t, r, a, v);
  }

  /** Which expiries can break a cap, when no other lease expires too late: exactly those that hit
      a request between its refresh and the end of its insert. */
  lemma LateExpiryIff(s: State, a: AccountId)
    requires Inv(s) && a in s.locks
    ensures s.locks[a] in s.requests
    ensures (exists t :: Reaches(Apply(s, ExpireAnywhere(a)), t) && !CapsHold(t.characters))
            <==> Inserting(s.requests[s.locks[a]].phase)
  {
    assert LockOwned(s, a);
    if Inserting(s.requests[s.locks[a]].phase) {
      var t := LateExpiryBreaksTheCap(s, a);
    } else {
      InvStep(s, Expire(a));
      forall t | Reaches(Apply(s, ExpireAnywhere(a)), t) ensures CapsHold(t.characters) {
        var states, steps :| RunsTo(Apply(s, ExpireAnywhere(a)), t, states, steps);
        InvRun(states, steps);
      }
    }
  }
}
