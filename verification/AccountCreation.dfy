/** Concurrent account creation without a lock: find by user id, otherwise generate an account
    id and upsert with set-on-insert. */
module AccountCreation {

  type RequestId = nat
  type Uid = string

  datatype Phase = Arrived | Missing | HasId(id: nat) | Answered(id: nat) | Failed

  datatype Request = Request(uid: Uid, phase: Phase)

  datatype State = State(accounts: map<Uid, nat>, counter: nat, requests: map<RequestId, Request>)

  datatype Step =
    | Arrive(r: RequestId, uid: Uid)
    | Find(r: RequestId)
    | GenerateId(r: RequestId)
    | Upsert(r: RequestId, reported: bool)
    | Fail(r: RequestId)

  function Moved(s: State, r: RequestId, phase: Phase): State
    requires r in s.requests
  {
    s.(requests := s.requests[r := s.requests[r].(phase := phase)])
  }

  predicate Enabled(s: State, e: Step) {
    match e
    case Arrive(r, _) => r !in s.requests
    case Find(r) => r in s.requests && s.requests[r].phase.Arrived?
    case GenerateId(r) => r in s.requests && s.requests[r].phase.Missing?
    case Upsert(r, _) => r in s.requests && s.requests[r].phase.HasId?
    case Fail(r) => r in s.requests && !s.requests[r].phase.Answered?
  }

  /** An upsert may take effect although its caller is told that it failed. */
  function Apply(s: State, e: Step): State
    requires Enabled(s, e)
  {
    match e
    case Arrive(r, uid) => s.(requests := s.requests[r := Request(uid, Arrived)])
    case Find(r) =>
      var uid := s.requests[r].uid;
      Moved(s, r, if uid in s.accounts then Answered(s.accounts[uid]) else Missing)
    case GenerateId(r) => Moved(s.(counter := s.counter + 1), r, HasId(s.counter + 1))
    case Upsert(r, reported) =>
      var me := s.requests[r];
      var accounts := if me.uid in s.accounts then s.accounts else s.accounts[me.uid := me.phase.id];
      Moved(s.(accounts := accounts), r, if reported then Answered(accounts[me.uid]) else Failed)
    case Fail(r) => Moved(s, r, Failed)
  }

  ghost predicate Init(s: State) {
    && s.requests == map[]
    && (forall u | u in s.accounts :: s.accounts[u] <= s.counter)
    && (forall u, v | u in s.accounts && v in s.accounts && u != v :: s.accounts[u] != s.accounts[v])
  }

  ghost predicate IsRun(states: seq<State>, steps: seq<Step>) {
    && |states| == |steps| + 1
    && forall n | 0 <= n < |steps| :: Enabled(states[n], steps[n]) && states[n + 1] == Apply(states[n], steps[n])
  }

  ghost predicate StoredUnique(s: State) {
    && (forall u | u in s.accounts :: s.accounts[u] <= s.counter)
    && (forall u, v | u in s.accounts && v in s.accounts && u != v :: s.accounts[u] != s.accounts[v])
  }

  ghost predicate PendingUnique(s: State) {
    && (forall r | r in s.requests && s.requests[r].phase.HasId? :: s.requests[r].phase.id <= s.counter)
    && (forall r, q | r in s.requests && q in s.requests && r != q
                      && s.requests[r].phase.HasId? && s.requests[q].phase.HasId? ::
          s.requests[r].phase.id != s.requests[q].phase.id)
    && (forall r, u | r in s.requests && s.requests[r].phase.HasId? && u in s.accounts ::
          s.accounts[u] != s.requests[r].phase.id)
  }

  ghost predicate AnswersStored(s: State) {
    forall r | r in s.requests && s.requests[r].phase.Answered? ::
      s.requests[r].uid in s.accounts && s.accounts[s.requests[r].uid] == s.requests[r].phase.id
  }

  /** Stored and pending ids are below the counter and all different; an answer is what is stored. */
  ghost predicate Inv(s: State) {
    StoredUnique(s) && PendingUnique(s) && AnswersStored(s)
  }

  ghost predicate AccountsKept(s: State, t: State) {
    forall u | u in s.accounts :: u in t.accounts && t.accounts[u] == s.accounts[u]
  }

  /** What a step leaves alone: the other requests, and the accounts but for one inserted under
      the stepping request's own id. */
  ghost predicate Frame(s: State, e: Step, t: State) {
    && s.counter <= t.counter && e.r in t.requests
    && (forall q | q in t.requests && q != e.r :: q in s.requests && t.requests[q] == s.requests[q])
    && AccountsKept(s, t)
    && (forall u | u in t.accounts && u !in s.accounts ::
          && e.Upsert? && e.r in s.requests && s.requests[e.r].phase.HasId?
          && u == s.requests[e.r].uid && t.accounts[u] == s.requests[e.r].phase.id)
    && (t.requests[e.r].phase.HasId? ==>
          t.requests[e.r].phase.id == t.counter == s.counter + 1 && t.accounts == s.accounts)
    && (t.requests[e.r].phase.Answered? ==>
          t.requests[e.r].uid in t.accounts && t.accounts[t.requests[e.r].uid] == t.requests[e.r].phase.id)
  }

  lemma StepFrame(s: State, e: Step)
    requires Enabled(s, e)
    ensures Frame(s, e, Apply(s, e))
  {
  }

  lemma StoredStep(s: State, e: Step, t: State)
    requires StoredUnique(s) && PendingUnique(s) && Frame(s, e, t)
    ensures StoredUnique(t)
  {
  }

  lemma PendingStep(s: State, e: Step, t: State)
    requires StoredUnique(s) && PendingUnique(s) && Frame(s, e, t)
    ensures PendingUnique(t)
  {
  }

  lemma InvStep(s: State, e: Step)
    requires Inv(s) && Enabled(s, e)
    ensures Inv(Apply(s, e)) && AccountsKept(s, Apply(s, e))
  {
    StepFrame(s, e);
    StoredStep(s, e, Apply(s, e));
    PendingStep(s, e, Apply(s, e));
  }

  lemma {:induction false} InvRun(states: seq<State>, steps: seq<Step>)
    requires IsRun(states, steps) && Init(states[0])
    ensures Inv(states[|steps|])
    decreases |steps|
  {
    if steps != [] {
      var m := |steps| - 1;
      InvRun(states[..m + 1], steps[..m]);
      InvStep(states[m], steps[m]);
    }
  }

  /** In every interleaving all callers that are answered for one user id get the same account,
      callers for different user ids get different accounts, and no id is above the counter. */
  lemma CreationConverges(states: seq<State>, steps: seq<Step>)
    requires IsRun(states, steps) && Init(states[0])
    ensures var s := states[|steps|];
            && (forall r, q | r in s.requests && q in s.requests
                              && s.requests[r].phase.Answered? && s.requests[q].phase.Answered? ::
                  s.requests[r].uid == s.requests[q].uid <==> s.requests[r].phase.id == s.requests[q].phase.id)
            && (forall r | r in s.requests && s.requests[r].phase.Answered? :: s.requests[r].phase.id <= s.counter)
  {
    InvRun(states, steps);
  }

  /** An account, once created, keeps its id for the rest of the run. */
  lemma {:induction false} AccountsAreStable(states: seq<State>, steps: seq<Step>, i: nat, u: Uid)
    requires IsRun(states, steps) && Init(states[0]) && i <= |steps| && u in states[i].accounts
    ensures u in states[|steps|].accounts && states[|steps|].accounts[u] == states[i].accounts[u]
    decreases |steps|
  {
    if i < |steps| {
      var m := |steps| - 1;
      AccountsAreStable(states[..m + 1], steps[..m], i, u);
      InvRun(states[..m + 1], steps[..m]);
      InvStep(states[m], steps[m]);
    }
  }

  // ----- who is answered -----

  /** The step answers the request: its account was found, or its upsert reports success. */
  predicate Answers(s: State, e: Step, r: RequestId)
    requires Enabled(s, e)
  {
    e == Upsert(r, true) || (e == Find(r) && s.requests[r].uid in s.accounts)
  }

  predicate Fails(e: Step, r: RequestId) {
    e == Fail(r) || e == Upsert(r, false)
  }

  predicate IsAnswered(s: State, r: RequestId) {
    r in s.requests && s.requests[r].phase.Answered?
  }

  predicate IsFailed(s: State, r: RequestId) {
    r in s.requests && s.requests[r].phase.Failed?
  }

  lemma AnswerStep(s: State, e: Step, r: RequestId)
    requires Enabled(s, e)
    ensures IsAnswered(Apply(s, e), r) <==> IsAnswered(s, r) || Answers(s, e, r)
    ensures IsFailed(Apply(s, e), r) <==> IsFailed(s, r) || Fails(e, r)
  {
  }

  /** A caller gets an account exactly when one was found or its upsert reports success, and an
      error exactly when a step of it failed. */
  lemma {:induction false} AnsweredIff(states: seq<State>, steps: seq<Step>, r: RequestId)
    requires IsRun(states, steps) && Init(states[0])
    ensures IsAnswered(states[|steps|], r) <==> exists n | 0 <= n < |steps| :: Answers(states[n], steps[n], r)
    ensures IsFailed(states[|steps|], r) <==> exists n | 0 <= n < |steps| :: Fails(steps[n], r)
    decreases |steps|
  {
    if steps != [] {
      var m := |steps| - 1;
      var before, run := states[..m + 1], steps[..m];
      AnsweredIff(before, run, r);
      AnswerStep(states[m], steps[m], r);
      assert forall n | 0 <= n < m :: before[n] == states[n] && run[n] == steps[n];
    }
  }

  /** The step brings an account for the user id into being. */
  predicate Creates(s: State, e: Step, u: Uid)
    requires Enabled(s, e)
  {
    e.Upsert? && s.requests[e.r].uid == u
  }

  lemma CreateStep(s: State, e: Step, u: Uid)
    requires Enabled(s, e)
    ensures u in Apply(s, e).accounts <==> u in s.accounts || Creates(s, e, u)
  {
  }

  /** A user id has an account exactly when it had one before, or some request upserted it. */
  lemma {:induction false} CreatedIff(states: seq<State>, steps: seq<Step>, u: Uid)
    requires IsRun(states, steps)
    ensures u in states[|steps|].accounts <==>
            u in states[0].accounts || exists n | 0 <= n < |steps| :: Creates(states[n], steps[n], u)
    decreases |steps|
  {
    if steps != [] {
      var m := |steps| - 1;
      var before, run := states[..m + 1], steps[..m];
      CreatedIff(before, run, u);
      CreateStep(states[m], steps[m], u);
      assert forall n | 0 <= n < m :: before[n] == states[n] && run[n] == steps[n];
    }
  }

  /** Undisturbed, a caller is answered in at most three steps: with the account that exists, or
      with a new one under the next id. */
  lemma UndisturbedCaller(s: State, r: RequestId)
    requires r in s.requests && s.requests[r].phase.Arrived?
    ensures var u, found := s.requests[r].uid, Apply(s, Find(r));
            if u in s.accounts then found.requests[r].phase == Answered(s.accounts[u]) && found.accounts == s.accounts
            else
              && Enabled(found, GenerateId(r)) && Enabled(Apply(found, GenerateId(r)), Upsert(r, true))
              && var t := Apply(Apply(found, GenerateId(r)), Upsert(r, true));
                 t.requests[r].phase == Answered(s.counter + 1) && t.accounts == s.accounts[u := s.counter + 1]
  {
  }
}
