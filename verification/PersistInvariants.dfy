/** What every step of the save protocol keeps. */
module PersistInvariants {
  import opened PersistProtocol

  // ----- timers, progress -----

  ghost predicate OneTimer(s: State) {
    && 0 < s.nextTimer
    && s.saveTimer < s.nextTimer
    && s.liveTimers == (if s.saveTimer == NO_TIMER then {} else {s.saveTimer})
  }

  /** Dirt is always on its way to a save. */
  ghost predicate Progress(s: State) {
    s.running && IsDirty(s) ==>
      s.saveTimer != NO_TIMER || s.queue != [] || s.okAcks != {} || s.failAcks != {}
  }

  lemma TimerStep(s: State, e: Step)
    requires OneTimer(s) && Progress(s) && Enabled(s, e)
    ensures OneTimer(Apply(s, e)) && Progress(Apply(s, e))
  {
  }

  /** Marking arms the save timer exactly when it finds dirt; writing without naming a module, or
      naming only unknown ones on a clean model, does not. */
  lemma MarkingArmsIff(s: State, writes: map<Key, Value>, keys: seq<Key>)
    requires Enabled(s, Update(writes, keys))
    ensures var t := Apply(s, Update(writes, keys));
            && (t.saveTimer != NO_TIMER <==>
                  s.saveTimer != NO_TIMER || (keys != [] && IsDirty(t) && s.nextTimer != NO_TIMER))
            && (s.saveTimer != NO_TIMER ==> t.saveTimer == s.saveTimer)
  {
  }

  // ----- a missing document -----

  /** While the document is missing, everything is still marked, only upserts are queued and
      no success is on its way. */
  ghost predicate AbsentIsAllDirty(s: State) {
    s.document.Absent? ==> s.all && s.okAcks == {} && forall i | 0 <= i < |s.queue| :: s.queue[i].upsert
  }

  lemma {:induction false} AttemptKeepsUpsert(document: Document, op: Op, attempts: seq<Outcome>)
    ensures op.upsert && Attempt(document, op, attempts).1 ==> Attempt(document, op, attempts).0.Present?
    ensures document.Present? ==> Attempt(document, op, attempts).0.Present?
    decreases attempts
  {
    if attempts != [] {
      AttemptKeepsUpsert(document, op, attempts[1..]);
      AttemptKeepsUpsert(ApplyOp(document, op), op, attempts[1..]);
    }
  }

  lemma AbsentStep(s: State, e: Step)
    requires AbsentIsAllDirty(s) && Enabled(s, e)
    ensures AbsentIsAllDirty(Apply(s, e))
  {
    if e.Stop? {
      AttemptKeepsUpsert(s.document, Extract(s), e.attempts);
    }
  }

  // ----- identities -----

  ghost predicate FreshIds(s: State) {
    && (forall i | 0 <= i < |s.queue| :: s.queue[i].id < s.nextOp
                                         && s.queue[i].id !in s.okAcks && s.queue[i].id !in s.failAcks)
    && (forall i, j | 0 <= i < j < |s.queue| :: s.queue[i].id < s.queue[j].id)
    && (forall id | id in s.okAcks :: id < s.nextOp && id !in s.failAcks)
    && (forall id | id in s.failAcks :: id < s.nextOp)
  }

  lemma QueuedIds(s: State, timer: nat)
    requires FreshIds(s)
    ensures FreshIds(OnSaveTimer(s, timer, true))
  {
    var t := OnSaveTimer(s, timer, true);
    assert forall i | 0 <= i < |s.queue| :: t.queue[i] == s.queue[i];
    assert t.queue[|s.queue|].id == s.nextOp;
  }

  lemma RunIds(s: State, outcome: Outcome)
    requires FreshIds(s) && s.queue != []
    ensures FreshIds(RunQueued(s, outcome))
  {
    var t := RunQueued(s, outcome);
    assert forall i | 0 <= i < |t.queue| :: t.queue[i] == s.queue[i + 1];
    assert forall i | 0 <= i < |t.queue| :: s.queue[0].id < t.queue[i].id;
  }

  lemma IdsStep(s: State, e: Step)
    requires FreshIds(s) && Enabled(s, e)
    ensures FreshIds(Apply(s, e))
  {
    if e.TimerFires? && e.submitted {
      QueuedIds(s, e.timer);
    } else if e.RunHead? {
      RunIds(s, e.outcome);
    } else {
      assert Apply(s, e).queue == s.queue;
    }
  }

  // ----- versions -----

  /** `c` is `d` or an earlier content of the same module. */
  predicate NotAfter(c: Cell, d: Cell) {
    c == d || c.version < d.version
  }

  /** Every cell of `older` is still in `newer`, possibly replaced by a later content. */
  ghost predicate Grows(older: map<Key, Cell>, newer: map<Key, Cell>) {
    forall k | k in older :: k in newer && NotAfter(older[k], newer[k])
  }

  /** Where both have a cell, that of `older` is not the later one. */
  ghost predicate Below(older: map<Key, Cell>, newer: map<Key, Cell>) {
    forall k | k in older && k in newer :: NotAfter(older[k], newer[k])
  }

  function DocumentModules(document: Document): map<Key, Cell> {
    match document
    case Absent => map[]
    case Present(modules) => modules
  }

  /** Store, queue (in order) and memory hold later and later contents of each module, and an
      upsert carries every module that can be in the store when it runs. */
  ghost predicate VersionChain(s: State) {
    && s.dirties <= s.modules.Keys
    && Grows(DocumentModules(s.document), s.modules)
    && (forall i | 0 <= i < |s.queue| ::
          && Grows(s.queue[i].payload, s.modules)
          && Below(DocumentModules(s.document), s.queue[i].payload)
          && Covers(s.queue[i], s.document))
    && (forall i, j | 0 <= i < j < |s.queue| ::
          && Below(s.queue[i].payload, s.queue[j].payload)
          && (s.queue[j].upsert ==> s.queue[i].payload.Keys <= s.queue[j].payload.Keys))
  }

  /** A full update carries every module of the document it runs on. */
  ghost predicate Covers(op: Op, document: Document) {
    op.upsert ==> DocumentModules(document).Keys <= op.payload.Keys
  }

  lemma ApplyOpGrows(document: Document, op: Op)
    requires Below(DocumentModules(document), op.payload) && Covers(op, document)
    ensures Grows(DocumentModules(document), DocumentModules(ApplyOp(document, op)))
  {
  }

  lemma WrittenGrows(modules: map<Key, Cell>, writes: map<Key, Value>)
    ensures Grows(modules, Written(modules, writes))
  {
  }

  lemma GrowsTrans(a: map<Key, Cell>, b: map<Key, Cell>, c: map<Key, Cell>)
    requires Grows(a, b) && Grows(b, c)
    ensures Grows(a, c)
  {
  }

  lemma {:induction false} AttemptStaysInChain(document: Document, op: Op, attempts: seq<Outcome>,
                                               modules: map<Key, Cell>)
    requires Grows(DocumentModules(document), modules) && Covers(op, document)
    requires Grows(op.payload, modules) && Below(DocumentModules(document), op.payload)
    ensures var after := Attempt(document, op, attempts).0;
            && Grows(DocumentModules(document), DocumentModules(after))
            && Grows(DocumentModules(after), modules)
    ensures var (after, saved) := Attempt(document, op, attempts);
            saved && after.Present? ==>
              forall k | k in op.payload :: k in after.modules && after.modules[k] == op.payload[k]
    decreases attempts
  {
    if attempts != [] {
      AttemptStaysInChain(document, op, attempts[1..], modules);
      ApplyOpGrows(document, op);
      var applied := ApplyOp(document, op);
      AttemptStaysInChain(applied, op, attempts[1..], modules);
      var after := Attempt(applied, op, attempts[1..]).0;
      GrowsTrans(DocumentModules(document), DocumentModules(applied), DocumentModules(after));
    }
  }

  lemma WriteChain(s: State, writes: map<Key, Value>)
    requires VersionChain(s)
    ensures VersionChain(s.(modules := Written(s.modules, writes)))
  {
    var written := Written(s.modules, writes);
    WrittenGrows(s.modules, writes);
    GrowsTrans(DocumentModules(s.document), s.modules, written);
    forall i | 0 <= i < |s.queue| ensures Grows(s.queue[i].payload, written) {
      GrowsTrans(s.queue[i].payload, s.modules, written);
    }
  }

  lemma RunChain(s: State, outcome: Outcome)
    requires VersionChain(s) && s.queue != []
    ensures VersionChain(RunQueued(s, outcome))
    ensures Grows(DocumentModules(s.document), DocumentModules(RunQueued(s, outcome).document))
  {
    var head, t := s.queue[0], RunQueued(s, outcome);
    ApplyOpGrows(s.document, head);
    assert forall i | 0 <= i < |t.queue| :: t.queue[i] == s.queue[i + 1];
  }

  lemma ExtractChain(s: State, timer: nat)
    requires VersionChain(s)
    ensures VersionChain(OnSaveTimer(s, timer, true))
  {
    var op, t := Extract(s), OnSaveTimer(s, timer, true);
    assert Grows(op.payload, s.modules);
    forall i | 0 <= i < |s.queue| ensures Below(s.queue[i].payload, op.payload) {
    }
    assert forall i | 0 <= i < |s.queue| :: t.queue[i] == s.queue[i];
    assert t.queue[|s.queue|] == op;
  }

  lemma StopChain(s: State, attempts: seq<Outcome>)
    requires VersionChain(s) && Enabled(s, Stop(attempts))
    ensures VersionChain(SaveAndStop(s, attempts))
    ensures Grows(DocumentModules(s.document), DocumentModules(SaveAndStop(s, attempts).document))
  {
    if IsDirty(s) {
      AttemptStaysInChain(s.document, Extract(s), attempts, s.modules);
    }
  }

  lemma WriteStepChain(s: State, e: Step, writes: map<Key, Value>)
    requires VersionChain(s) && Enabled(s, e)
    requires e == UpdateAll(writes) || (e.Update? && e.writes == writes)
    ensures VersionChain(Apply(s, e)) && Apply(s, e).document == s.document && Grows(s.modules, Apply(s, e).modules)
  {
    WriteChain(s, writes);
    WrittenGrows(s.modules, writes);
  }

  lemma ChainStep(s: State, e: Step)
    requires VersionChain(s) && Enabled(s, e)
    ensures VersionChain(Apply(s, e))
    ensures Grows(DocumentModules(s.document), DocumentModules(Apply(s, e).document))
    ensures Grows(s.modules, Apply(s, e).modules)
  {
    match e
    case Update(writes, _) => WriteStepChain(s, e, writes);
    case UpdateAll(writes) => WriteStepChain(s, e, writes);
    case TimerFires(timer, submitted) =>
      if submitted {
        ExtractChain(s, timer);
      }
    case RunHead(outcome) => RunChain(s, outcome);
    case AckOk(_) =>
    case AckFailed(_) =>
    case Stop(attempts) => StopChain(s, attempts);
  }

  // ----- whole runs, from any start -----

  ghost predicate Healthy(s: State) {
    OneTimer(s) && Progress(s) && FreshIds(s)
  }

  lemma {:induction false} HealthyAfter(s0: State, steps: seq<Step>)
    requires Healthy(s0) && Feasible(s0, steps)
    ensures Healthy(After(s0, steps))
    decreases |steps|
  {
    if steps != [] {
      var before := steps[..|steps| - 1];
      HealthyAfter(s0, before);
      TimerStep(After(s0, before), steps[|before|]);
      IdsStep(After(s0, before), steps[|before|]);
    }
  }

  lemma {:induction false} ChainAfter(s0: State, steps: seq<Step>)
    requires VersionChain(s0) && Feasible(s0, steps)
    ensures VersionChain(After(s0, steps))
    decreases |steps|
  {
    if steps != [] {
      var before := steps[..|steps| - 1];
      ChainAfter(s0, before);
      ChainStep(After(s0, before), steps[|before|]);
    }
  }

  lemma {:induction false} AbsentAfter(s0: State, steps: seq<Step>)
    requires AbsentIsAllDirty(s0) && Feasible(s0, steps)
    ensures AbsentIsAllDirty(After(s0, steps))
    decreases |steps|
  {
    if steps != [] {
      var before := steps[..|steps| - 1];
      AbsentAfter(s0, before);
      AbsentStep(After(s0, before), steps[|before|]);
    }
  }

  lemma {:induction false} PrefixFeasible(s0: State, steps: seq<Step>, i: nat)
    requires Feasible(s0, steps) && i <= |steps|
    ensures Feasible(s0, steps[..i])
    decreases |steps|
  {
    if i == |steps| {
      assert steps[..i] == steps;
    } else {
      assert steps[..|steps| - 1][..i] == steps[..i];
      PrefixFeasible(s0, steps[..|steps| - 1], i);
    }
  }
}
