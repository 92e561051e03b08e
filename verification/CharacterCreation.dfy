/** Concurrent character creation: lock the account, count, refresh the lock, generate an id,
    insert, bind the id to its server. The lock is a lease that may expire. */
module CharacterCreation {

  type RequestId = nat
  type AccountId = int
  type ServerId = int

  const MAX_PER_ACCOUNT: nat := 2
  const MAX_PER_SERVER: nat := 2

  datatype Character = Character(id: nat, account: AccountId, server: ServerId)

  datatype Phase =
    | Arrived
    | Locked
    | Counted(total: nat)
    | Checked(total: nat, onServer: nat)
    | Refreshed(total: nat, onServer: nat)
    | HasId(total: nat, onServer: nat, id: nat)
    | Inserted(id: nat)
    | Returned(id: nat)
    | Failed

  datatype Request = Request(account: AccountId, server: ServerId, phase: Phase)

  datatype State = State(
    characters: set<Character>,
    counter: nat,
    locks: map<AccountId, RequestId>,
    requests: map<RequestId, Request>,
    actorServer: map<nat, ServerId>)

  datatype InsertOutcome = Stored | StoredButReportedFailed | Rejected

  datatype Step =
    | Arrive(r: RequestId, account: AccountId, server: ServerId)
    | TakeLock(r: RequestId)
    | CountAll(r: RequestId)
    | CountOnServer(r: RequestId)
    | Refresh(r: RequestId)
    | GenerateId(r: RequestId)
    | Insert(r: RequestId, outcome: InsertOutcome)
    | BindAndReturn(r: RequestId)
    | Fail(r: RequestId)
    | Expire(expired: AccountId)
    | ExpireAnywhere(expired: AccountId)

  function OfAccount(characters: set<Character>, account: AccountId): set<Character> {
    set c | c in characters && c.account == account
  }

  function OnServer(characters: set<Character>, account: AccountId, server: ServerId): set<Character> {
    set c | c in characters && c.account == account && c.server == server
  }

  predicate Holds(s: State, r: RequestId)
    requires r in s.requests
  {
    s.requests[r].account in s.locks && s.locks[s.requests[r].account] == r
  }

  /** Between a successful refresh and the end of the insert. */
  predicate Inserting(phase: Phase) {
    phase.Refreshed? || phase.HasId?
  }

  function Moved(s: State, r: RequestId, phase: Phase): State
    requires r in s.requests
  {
    s.(requests := s.requests[r := s.requests[r].(phase := phase)])
  }

  /** Releases the lock if it is still the request's own. */
  function Unlock(s: State, r: RequestId): State
    requires r in s.requests
  {
    if Holds(s, r) then s.(locks := s.locks - {s.requests[r].account}) else s
  }

  predicate Enabled(s: State, e: Step) {
    match e
    case Arrive(r, _, _) => r !in s.requests
    case TakeLock(r) => r in s.requests && s.requests[r].phase.Arrived? && s.requests[r].account !in s.locks
    case CountAll(r) => r in s.requests && s.requests[r].phase.Locked?
                        && |OfAccount(s.characters, s.requests[r].account)| < MAX_PER_ACCOUNT
    case CountOnServer(r) => r in s.requests && s.requests[r].phase.Counted?
                             && |OnServer(s.characters, s.requests[r].account, s.requests[r].server)| < MAX_PER_SERVER
    case Refresh(r) => r in s.requests && s.requests[r].phase.Checked? && Holds(s, r)
    case GenerateId(r) => r in s.requests && s.requests[r].phase.Refreshed?
    case Insert(r, _) => r in s.requests && s.requests[r].phase.HasId?
    case BindAndReturn(r) => r in s.requests && s.requests[r].phase.Inserted?
    case Fail(r) => r in s.requests && !s.requests[r].phase.Returned? && !s.requests[r].phase.Failed?
    case Expire(account) => account in s.locks && s.locks[account] in s.requests
                            && !Inserting(s.requests[s.locks[account]].phase)
    case ExpireAnywhere(account) => account in s.locks
  }

  function Apply(s: State, e: Step): State
    requires Enabled(s, e)
  {
    match e
    case Arrive(r, account, server) => s.(requests := s.requests[r := Request(account, server, Arrived)])
    case TakeLock(r) => Moved(s.(locks := s.locks[s.requests[r].account := r]), r, Locked)
    case CountAll(r) => Moved(s, r, Counted(|OfAccount(s.characters, s.requests[r].account)|))
    case CountOnServer(r) =>
      Moved(s, r, Checked(s.requests[r].phase.total,
                          |OnServer(s.characters, s.requests[r].account, s.requests[r].server)|))
    case Refresh(r) => Moved(s, r, Refreshed(s.requests[r].phase.total, s.requests[r].phase.onServer))
    case GenerateId(r) =>
      Moved(s.(counter := s.counter + 1), r,
            HasId(s.requests[r].phase.total, s.requests[r].phase.onServer, s.counter + 1))
    case Insert(r, outcome) =>
      var me := s.requests[r];
      var stored := if outcome.Rejected? then s
                    else s.(characters := s.characters + {Character(me.phase.id, me.account, me.server)});
      if outcome.Stored? then Moved(stored, r, Inserted(me.phase.id)) else Moved(Unlock(stored, r), r, Failed)
    case BindAndReturn(r) =>
      var id := s.requests[r].phase.id;
      Moved(Unlock(s.(actorServer := s.actorServer[id := s.requests[r].server]), r), r, Returned(id))
    case Fail(r) => Moved(Unlock(s, r), r, Failed)
    case Expire(account) => s.(locks := s.locks - {account})
    case ExpireAnywhere(account) => s.(locks := s.locks - {account})
  }

  ghost predicate CapsHold(characters: set<Character>) {
    && (forall a :: |OfAccount(characters, a)| <= MAX_PER_ACCOUNT)
    && (forall a, v :: |OnServer(characters, a, v)| <= MAX_PER_SERVER)
  }

  /** Any stored data within the caps, and nobody at work yet. */
  ghost predicate Init(s: State) {
    && s.requests == map[] && s.locks == map[] && CapsHold(s.characters)
    && (forall c | c in s.characters :: c.id <= s.counter)
    && (forall c, d | c in s.characters && d in s.characters && c.id == d.id :: c == d)
  }

  ghost predicate IsRun(states: seq<State>, steps: seq<Step>) {
    && |states| == |steps| + 1
    && forall n | 0 <= n < |steps| :: Enabled(states[n], steps[n]) && states[n + 1] == Apply(states[n], steps[n])
  }

  // ----- the invariant -----

  /** While the request holds the lock, what it counted is still exact. */
  predicate CountsExact(s: State, r: RequestId)
    requires r in s.requests
  {
    var me := s.requests[r];
    match me.phase
    case Counted(total) => total < MAX_PER_ACCOUNT && (Holds(s, r) ==> total == |OfAccount(s.characters, me.account)|)
    case Checked(total, onServer) =>
      && total < MAX_PER_ACCOUNT && onServer < MAX_PER_SERVER
      && (Holds(s, r) ==> total == |OfAccount(s.characters, me.account)|
                          && onServer == |OnServer(s.characters, me.account, me.server)|)
    case Refreshed(total, onServer) =>
      Holds(s, r) && InsertSafe(s, me, total, onServer)
    case HasId(total, onServer, _) =>
      Holds(s, r) && InsertSafe(s, me, total, onServer)
    case _ => true
  }

  predicate InsertSafe(s: State, me: Request, total: nat, onServer: nat) {
    && total == |OfAccount(s.characters, me.account)| < MAX_PER_ACCOUNT
    && onServer == |OnServer(s.characters, me.account, me.server)| < MAX_PER_SERVER
  }

  predicate HasOwnId(phase: Phase) {
    phase.HasId? || phase.Inserted? || phase.Returned?
  }

  ghost predicate IdsBelow(s: State) {
    && (forall c | c in s.characters :: c.id <= s.counter)
    && (forall r | r in s.requests && HasOwnId(s.requests[r].phase) :: 0 < s.requests[r].phase.id <= s.counter)
  }

  ghost predicate StoredUnique(s: State) {
    && (forall c, d | c in s.characters && d in s.characters && c.id == d.id :: c == d)
    && (forall r, c | r in s.requests && s.requests[r].phase.HasId? && c in s.characters ::
          c.id != s.requests[r].phase.id)
  }

  ghost predicate RequestsUnique(s: State) {
    forall r, q | r in s.requests && q in s.requests && r != q ::
      HasOwnId(s.requests[r].phase) && HasOwnId(s.requests[q].phase) ==>
        s.requests[r].phase.id != s.requests[q].phase.id
  }

  /** Generated ids are unique, among the requests and in the collection. */
  ghost predicate IdsUnique(s: State) {
    IdsBelow(s) && StoredUnique(s) && RequestsUnique(s)
  }

  /** A request that inserted left its character behind; one that returned also bound the id. */
  predicate Bound(s: State, r: RequestId)
    requires r in s.requests
  {
    var me := s.requests[r];
    && (me.phase.Inserted? || me.phase.Returned? ==> Character(me.phase.id, me.account, me.server) in s.characters)
    && (me.phase.Returned? ==> me.phase.id in s.actorServer && s.actorServer[me.phase.id] == me.server)
  }

  ghost predicate ReturnedBound(s: State) {
    forall r | r in s.requests :: Bound(s, r)
  }

  /** A lock belongs to a request of its account. */
  predicate LockOwned(s: State, account: AccountId)
    requires account in s.locks
  {
    s.locks[account] in s.requests && s.requests[s.locks[account]].account == account
  }

  ghost predicate LocksOwned(s: State) {
    forall account | account in s.locks :: LockOwned(s, account)
  }

  ghost predicate Inv(s: State) {
    && CapsHold(s.characters) && IdsUnique(s) && ReturnedBound(s) && LocksOwned(s)
    && (forall r | r in s.requests :: CountsExact(s, r))
  }

  lemma InsertCounts(characters: set<Character>, c: Character, a: AccountId, v: ServerId)
    requires c !in characters
    ensures |OfAccount(characters + {c}, a)| == |OfAccount(characters, a)| + (if c.account == a then 1 else 0)
    ensures |OnServer(characters + {c}, a, v)|
            == |OnServer(characters, a, v)| + (if c.account == a && c.server == v then 1 else 0)
  {
    assert OfAccount(characters + {c}, a) == OfAccount(characters, a) + (if c.account == a then {c} else {});
    assert OnServer(characters + {c}, a, v)
        == OnServer(characters, a, v) + (if c.account == a && c.server == v then {c} else {});
  }

  lemma CapsStep(s: State, e: Step)
    requires Inv(s) && Enabled(s, e)
    ensures CapsHold(Apply(s, e).characters)
  {
    if e.Insert? && !e.outcome.Rejected? {
      var me, t := s.requests[e.r], Apply(s, e);
      var c := Character(me.phase.id, me.account, me.server);
      assert CountsExact(s, e.r);
      forall a ensures |OfAccount(t.characters, a)| <= MAX_PER_ACCOUNT {
        InsertCounts(s.characters, c, a, me.server);
      }
      forall a, v ensures |OnServer(t.characters, a, v)| <= MAX_PER_SERVER {
        InsertCounts(s.characters, c, a, v);
      }
    }
  }

  lemma MoverCounts(s: State, e: Step)
    requires Inv(s) && Enabled(s, e) && !e.Expire? && !e.ExpireAnywhere?
    ensures e.r in Apply(s, e).requests && CountsExact(Apply(s, e), e.r)
  {
    if e.r in s.requests {
      assert CountsExact(s, e.r);
    }
  }

  /** What a step leaves alone: the other requests, their locks unless a lease expires, and the
      collection but for one inserted character. */
  ghost predicate Frame(s: State, e: Step, t: State) {
    && s.counter <= t.counter
    && (e.Insert? ==> e.r in s.requests)
    && (e.Expire? || e.ExpireAnywhere? ==> t.requests == s.requests && t.characters == s.characters)
    && (!e.Expire? && !e.ExpireAnywhere? ==>
          && e.r in t.requests
          && (forall r | r in t.requests && r != e.r :: r in s.requests && t.requests[r] == s.requests[r])
          && (forall r | r in s.requests :: r in t.requests)
          && (HasOwnId(t.requests[e.r].phase) ==>
                if e.GenerateId? then t.requests[e.r].phase.id == t.counter == s.counter + 1
                else e.r in s.requests && HasOwnId(s.requests[e.r].phase) && !t.requests[e.r].phase.HasId?
                     && t.requests[e.r].phase.id == s.requests[e.r].phase.id)
          && (if e.Insert? && !e.outcome.Rejected?
              then var me := s.requests[e.r];
                   me.phase.HasId? && t.characters == s.characters + {Character(me.phase.id, me.account, me.server)}
              else t.characters == s.characters)
          && (e.Insert? ==> !t.requests[e.r].phase.HasId?))
  }

  lemma StepFrame(s: State, e: Step)
    requires Enabled(s, e)
    ensures Frame(s, e, Apply(s, e))
  {
  }

  lemma LocksFrame(s: State, e: Step, r: RequestId)
    requires Enabled(s, e) && !e.ExpireAnywhere? && r in s.requests && (e.Expire? || r != e.r)
    ensures r in Apply(s, e).requests
    ensures Holds(Apply(s, e), r) ==> Holds(s, r)
    ensures Holds(s, r) && Inserting(s.requests[r].phase) ==> Holds(Apply(s, e), r)
  {
  }

  /** Only a lock holder inserts, so an insert leaves every other holder's counts exact. */
  lemma BystanderCounts(s: State, e: Step, t: State, r: RequestId)
    requires Inv(s) && Frame(s, e, t) && !e.ExpireAnywhere? && r in s.requests && (e.Expire? || r != e.r)
    requires r in t.requests && (Holds(t, r) ==> Holds(s, r))
    requires Holds(s, r) && Inserting(s.requests[r].phase) ==> Holds(t, r)
    ensures CountsExact(t, r)
  {
    assert CountsExact(s, r);
    assert t.requests[r] == s.requests[r];
    if e.Insert? && !e.outcome.Rejected? {
      var me := s.requests[e.r];
      assert CountsExact(s, e.r);
      assert Holds(s, r) ==> s.requests[r].account != me.account;
      InsertCounts(s.characters, Character(me.phase.id, me.account, me.server),
                   s.requests[r].account, s.requests[r].server);
    }
  }

  lemma CountsStep(s: State, e: Step, r: RequestId)
    requires Inv(s) && Enabled(s, e) && !e.ExpireAnywhere? && r in Apply(s, e).requests
    ensures CountsExact(Apply(s, e), r)
  {
    if !e.Expire? && r == e.r {
      MoverCounts(s, e);
    } else {
      StepFrame(s, e);
      LocksFrame(s, e, r);
      BystanderCounts(s, e, Apply(s, e), r);
    }
  }

  lemma BelowStep(s: State, e: Step, t: State)
    requires IdsBelow(s) && Frame(s, e, t)
    ensures IdsBelow(t)
  {
  }

  lemma StoredStep(s: State, e: Step, t: State)
    requires IdsBelow(s) && StoredUnique(s) && RequestsUnique(s) && Frame(s, e, t)
    ensures StoredUnique(t)
  {
  }

  lemma RequestsStep(s: State, e: Step, t: State)
    requires IdsBelow(s) && RequestsUnique(s) && Frame(s, e, t)
    ensures RequestsUnique(t)
  {
    forall r, q | r in t.requests && q in t.requests && r != q
                  && HasOwnId(t.requests[r].phase) && HasOwnId(t.requests[q].phase)
      ensures t.requests[r].phase.id != t.requests[q].phase.id
    {
      assert (r in s.requests && HasOwnId(s.requests[r].phase)) || t.requests[r].phase.id == s.counter + 1;
      assert (q in s.requests && HasOwnId(s.requests[q].phase)) || t.requests[q].phase.id == s.counter + 1;
    }
  }

  lemma IdsStep(s: State, e: Step, t: State)
    requires IdsUnique(s) && Frame(s, e, t)
    ensures IdsUnique(t)
  {
    BelowStep(s, e, t);
    StoredStep(s, e, t);
    RequestsStep(s, e, t);
  }

  lemma BoundStep(s: State, e: Step, r: RequestId)
    requires ReturnedBound(s) && RequestsUnique(s) && Enabled(s, e) && r in Apply(s, e).requests
    ensures Bound(Apply(s, e), r)
  {
    if r in s.requests {
      assert Bound(s, r);
    }
  }

  lemma OwnedStep(s: State, e: Step, account: AccountId)
    requires LocksOwned(s) && Enabled(s, e) && account in Apply(s, e).locks
    ensures LockOwned(Apply(s, e), account)
  {
    assert account in s.locks ==> LockOwned(s, account);
  }

  lemma InvStep(s: State, e: Step)
    requires Inv(s) && Enabled(s, e) && !e.ExpireAnywhere?
    ensures Inv(Apply(s, e))
  {
    var t := Apply(s, e);
    CapsStep(s, e);
    StepFrame(s, e);
    IdsStep(s, e, t);
    forall r | r in t.requests ensures CountsExact(t, r) && Bound(t, r) {
      CountsStep(s, e, r);
      BoundStep(s, e, r);
    }
    forall account | account in t.locks ensures LockOwned(t, account) {
      OwnedStep(s, e, account);
    }
  }

  lemma {:induction false} InvRun(states: seq<State>, steps: seq<Step>)
    requires IsRun(states, steps) && Inv(states[0]) && forall n | 0 <= n < |steps| :: !steps[n].ExpireAnywhere?
    ensures Inv(states[|steps|])
    decreases |steps|
  {
    if steps != [] {
      var m := |steps| - 1;
      InvRun(states[..m + 1], steps[..m]);
      InvStep(states[m], steps[m]);
    }
  }

  // ----- the main results -----

  /** With any number of concurrent requests and leases expiring anywhere but between a refresh
      and its insert, the caps are never exceeded. */
  lemma CapsNeverExceeded(states: seq<State>, steps: seq<Step>)
    requires IsRun(states, steps) && Init(states[0]) && forall n | 0 <= n < |steps| :: !steps[n].ExpireAnywhere?
    ensures CapsHold(states[|steps|].characters)
  {
    InvRun(states, steps);
  }

  /** A refresh succeeds only while the earlier counts are still exact. */
  lemma RefreshMeansCountsExact(states: seq<State>, steps: seq<Step>, r: RequestId)
    requires IsRun(states, steps) && Init(states[0]) && forall n | 0 <= n < |steps| :: !steps[n].ExpireAnywhere?
    requires Enabled(states[|steps|], Refresh(r))
    ensures var s := states[|steps|];
            var me := s.requests[r];
            && me.phase.total == |OfAccount(s.characters, me.account)| < MAX_PER_ACCOUNT
            && me.phase.onServer == |OnServer(s.characters, me.account, me.server)| < MAX_PER_SERVER
  {
    InvRun(states, steps);
    assert CountsExact(states[|steps|], r);
  }

  lemma {:induction false} IdsRun(states: seq<State>, steps: seq<Step>)
    requires IsRun(states, steps) && Init(states[0])
    ensures IdsUnique(states[|steps|]) && ReturnedBound(states[|steps|])
    decreases |steps|
  {
    if steps != [] {
      var m := |steps| - 1;
      IdsRun(states[..m + 1], steps[..m]);
      StepFrame(states[m], steps[m]);
      IdsStep(states[m], steps[m], states[m + 1]);
      var t := states[m + 1];
      forall r | r in t.requests ensures Bound(t, r) {
        BoundStep(states[m], steps[m], r);
      }
    }
  }

  /** Every id returned to a caller names exactly one stored character, on the server that the
      routing table binds the id to; two callers never get the same id. This needs no lock: it holds
      whenever leases expire. */
  lemma ReturnedIdsAreBound(states: seq<State>, steps: seq<Step>)
    requires IsRun(states, steps) && Init(states[0])
    ensures var s := states[|steps|];
            && (forall r | r in s.requests && s.requests[r].phase.Returned? ::
                  var me := s.requests[r];
                  && Character(me.phase.id, me.account, me.server) in s.characters
                  && (forall c | c in s.characters && c.id == me.phase.id ::
                        c == Character(me.phase.id, me.account, me.server))
                  && me.phase.id in s.actorServer && s.actorServer[me.phase.id] == me.server)
            && (forall r, q | r in s.requests && q in s.requests && r != q
                              && s.requests[r].phase.Returned? && s.requests[q].phase.Returned? ::
                  s.requests[r].phase.id != s.requests[q].phase.id)
  {
    IdsRun(states, steps);
    assert forall r | r in states[|steps|].requests :: Bound(states[|steps|], r);
  }
}
