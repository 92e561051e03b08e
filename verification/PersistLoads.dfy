/** Runs that start from a failed load, compared with runs that start from an empty document. */
module PersistLoads {
  import opened PersistProtocol
  import opened PersistInvariants
  import opened PersistTheorems

  ghost predicate SameButDocument(s: State, t: State) {
    s == t.(document := s.document)
  }

  /** `d` is `e`, or `e` laid over what was stored before. */
  ghost predicate Overlays(d: Document, e: Document, earlier: map<Key, Cell>) {
    d == e || (d.Present? && e.Present? && d.modules == earlier + e.modules)
  }

  lemma ApplyOpOverlays(d: Document, e: Document, earlier: map<Key, Cell>, op: Op)
    requires Overlays(d, e, earlier)
    ensures Overlays(ApplyOp(d, op), ApplyOp(e, op), earlier)
  {
    if d != e {
      assert earlier + e.modules + op.payload == earlier + (e.modules + op.payload);
    }
  }

  lemma {:induction false} AttemptOverlays(d: Document, e: Document, earlier: map<Key, Cell>, op: Op,
                                           attempts: seq<Outcome>)
    requires Overlays(d, e, earlier)
    ensures Overlays(Attempt(d, op, attempts).0, Attempt(e, op, attempts).0, earlier)
    ensures Attempt(d, op, attempts).1 == Attempt(e, op, attempts).1
    decreases attempts
  {
    if attempts != [] {
      ApplyOpOverlays(d, e, earlier, op);
      AttemptOverlays(d, e, earlier, op, attempts[1..]);
      AttemptOverlays(ApplyOp(d, op), ApplyOp(e, op), earlier, op, attempts[1..]);
    }
  }

  /** The steps of the actor look at no document. */
  lemma ActorStepIgnoresDocument(s: State, t: State, e: Step)
    requires SameButDocument(s, t) && Enabled(s, e) && Enabled(t, e) && !e.RunHead? && !e.Stop?
    ensures SameButDocument(Apply(s, e), Apply(t, e))
    ensures Apply(s, e).document == s.document && Apply(t, e).document == t.document
  {
    match e
    case Update(writes, keys) =>
    case UpdateAll(writes) =>
    case TimerFires(timer, submitted) =>
      var fired := s.(liveTimers := s.liveTimers - {timer},
                      saveTimer := if s.saveTimer == timer then NO_TIMER else s.saveTimer);
      assert Extract(fired) == Extract(fired.(document := t.document));
    case AckOk(_) =>
    case AckFailed(_) =>
  }

  lemma RunOverlays(s: State, t: State, earlier: map<Key, Cell>, outcome: Outcome)
    requires SameButDocument(s, t) && Overlays(s.document, t.document, earlier) && s.queue != []
    ensures SameButDocument(RunQueued(s, outcome), RunQueued(t, outcome))
    ensures Overlays(RunQueued(s, outcome).document, RunQueued(t, outcome).document, earlier)
  {
    ApplyOpOverlays(s.document, t.document, earlier, s.queue[0]);
  }

  lemma StopOverlays(s: State, t: State, earlier: map<Key, Cell>, attempts: seq<Outcome>)
    requires SameButDocument(s, t) && Overlays(s.document, t.document, earlier)
    ensures SameButDocument(SaveAndStop(s, attempts), SaveAndStop(t, attempts))
    ensures Overlays(SaveAndStop(s, attempts).document, SaveAndStop(t, attempts).document, earlier)
  {
    assert Extract(s) == Extract(t);
    AttemptOverlays(s.document, t.document, earlier, Extract(s), attempts);
  }

  lemma OverlayStep(s: State, t: State, earlier: map<Key, Cell>, e: Step)
    requires SameButDocument(s, t) && Overlays(s.document, t.document, earlier) && Enabled(s, e) && Enabled(t, e)
    ensures SameButDocument(Apply(s, e), Apply(t, e))
    ensures Overlays(Apply(s, e).document, Apply(t, e).document, earlier)
  {
    match e
    case RunHead(outcome) => RunOverlays(s, t, earlier, outcome);
    case Stop(attempts) => StopOverlays(s, t, earlier, attempts);
    case _ => ActorStepIgnoresDocument(s, t, e);
  }

  ghost predicate Alike(s: State, t: State, earlier: map<Key, Cell>) {
    SameButDocument(s, t) && Overlays(s.document, t.document, earlier)
  }

  lemma AlikeStep(s: State, t: State, earlier: map<Key, Cell>, e: Step)
    requires Alike(s, t, earlier)
    ensures Enabled(s, e) <==> Enabled(t, e)
    ensures Enabled(s, e) ==> Alike(Apply(s, e), Apply(t, e), earlier)
  {
    if Enabled(s, e) {
      OverlayStep(s, t, earlier, e);
    }
  }

  lemma {:induction false} OverlayRun(s0: State, t0: State, earlier: map<Key, Cell>, steps: seq<Step>)
    requires Alike(s0, t0, earlier)
    ensures Feasible(s0, steps) <==> Feasible(t0, steps)
    ensures Feasible(s0, steps) ==> Alike(After(s0, steps), After(t0, steps), earlier)
    decreases |steps|
  {
    if steps != [] {
      var before := steps[..|steps| - 1];
      OverlayRun(s0, t0, earlier, before);
      if Feasible(s0, before) {
        AlikeStep(After(s0, before), After(t0, before), earlier, steps[|before|]);
      }
    }
  }

  lemma SameEvents(s0: State, t0: State, earlier: map<Key, Cell>, steps: seq<Step>, i: int, k: Key, o: nat)
    requires Alike(s0, t0, earlier)
    requires Feasible(s0, steps) && Feasible(t0, steps)
    ensures MarksAt(s0, steps, i, k) <==> MarksAt(t0, steps, i, k)
    ensures ExtractsAt(s0, steps, i, o) <==> ExtractsAt(t0, steps, i, o)
  {
    if 0 <= i < |steps| {
      OverlayRun(s0, t0, earlier, steps[..i]);
    }
  }

  lemma SameWindows(s0: State, t0: State, earlier: map<Key, Cell>, steps: seq<Step>,
                    k: Key, i: int, j: int, l: int, o: nat)
    requires Alike(s0, t0, earlier)
    requires Feasible(s0, steps) && Feasible(t0, steps)
    ensures MarkedInWindow(s0, steps, k, i, j, l, o) <==> MarkedInWindow(t0, steps, k, i, j, l, o)
  {
    SameEvents(s0, t0, earlier, steps, i, k, o);
    SameEvents(s0, t0, earlier, steps, j, k, o);
    forall m ensures MarksAt(s0, steps, m, k) <==> MarksAt(t0, steps, m, k) {
      SameEvents(s0, t0, earlier, steps, m, k, o);
    }
  }

  // ----- the start state a run can be compared with -----

  /** The one load after which saves may never arrive. */
  predicate FailsOnMissing(document: Document, outcome: LoadOutcome) {
    document.Absent? && LoadFailed(outcome)
  }

  /** A failed load starts like a load of an empty document. */
  function Baseline(document: Document, outcome: LoadOutcome): State {
    if LoadFailed(outcome) then Start(Present(map[]), Loaded) else Start(document, outcome)
  }

  lemma BaselineStart(document: Document, outcome: LoadOutcome)
    requires Answerable(document, outcome) && !FailsOnMissing(document, outcome)
    ensures var s0, t0 := Start(document, outcome), Baseline(document, outcome);
            Alike(s0, t0, DocumentModules(document))
  {
    if LoadFailed(outcome) {
      assert DocumentModules(document) + map[] == DocumentModules(document);
    }
  }

  /** A run behaves as it would after an empty document: the whole invariant holds for that
      document, and the real one differs from it by earlier modules only. */
  lemma CoveredByBaseline(document: Document, outcome: LoadOutcome, steps: seq<Step>)
    requires Answerable(document, outcome) && !FailsOnMissing(document, outcome)
    requires Feasible(Start(document, outcome), steps)
    ensures var s0, t0 := Start(document, outcome), Baseline(document, outcome);
            && Feasible(t0, steps) && Inv(After(t0, steps), WatchAfter(t0, steps))
            && Alike(After(s0, steps), After(t0, steps), DocumentModules(document))
  {
    BaselineStart(document, outcome);
    OverlayRun(Start(document, outcome), Baseline(document, outcome), DocumentModules(document), steps);
    if LoadFailed(outcome) {
      InvAfter(Present(map[]), Loaded, steps);
    } else {
      InvAfter(document, outcome, steps);
    }
  }
}
