/** When the save protocol leaves the store equal to memory, and the runs in which it does not. */
module PersistConsequences {
  import opened PersistProtocol
  import opened PersistInvariants
  import opened PersistTheorems
  import opened PersistLoads
  import opened PersistRuns

  /** Whatever the load reported: dirt is always on its way to a save, and at most one save timer
      exists. */
  lemma DirtIsOnItsWay(document: Document, outcome: LoadOutcome, steps: seq<Step>)
    requires Feasible(Start(document, outcome), steps)
    ensures var s := After(Start(document, outcome), steps);
            && (s.running && IsDirty(s) ==>
                  s.liveTimers != {} || s.queue != [] || s.okAcks != {} || s.failAcks != {})
            && |s.liveTimers| <= 1
            && (forall t | t in s.liveTimers :: t == s.saveTimer)
  {
    HealthyAfter(Start(document, outcome), steps);
  }

  // ----- clean and behind -----

  /** A key that is clean although the store is behind memory was marked between the extraction of
      some save and that save's success notification. */
  lemma CleanAndBehindWasMarkedInAWindow(document: Document, outcome: LoadOutcome, steps: seq<Step>, k: Key)
    requires Answerable(document, outcome) && !FailsOnMissing(document, outcome)
    requires Feasible(Start(document, outcome), steps)
    requires var s := After(Start(document, outcome), steps);
             k in s.modules && k !in DirtyKeys(s) && !UpToDate(s, k)
    ensures exists i, j, l, o :: MarkedInWindow(Start(document, outcome), steps, k, i, j, l, o)
  {
    var s0, t0 := Start(document, outcome), Baseline(document, outcome);
    CoveredByBaseline(document, outcome, steps);
    BaselineStart(document, outcome);
    assert !UpToDate(After(t0, steps), k);
    var i, j, l, o := LostHasWitness(t0, steps, k);
    SameWindows(s0, t0, DocumentModules(document), steps, k, i, j, l, o);
  }

  ghost predicate BehindOnlyByWindows(s0: State, steps: seq<Step>)
    requires Feasible(s0, steps)
  {
    var s := After(s0, steps);
    forall k | k in s.modules && k !in DirtyKeys(s) && !UpToDate(s, k) ::
      exists i, j, l, o :: MarkedInWindow(s0, steps, k, i, j, l, o)
  }

  /** No key was marked between a save's extraction and that save's success notification,
      except keys marked again afterwards. */
  ghost predicate NoMarkInAWindow(s0: State, steps: seq<Step>)
    requires Feasible(s0, steps)
  {
    forall k, i, j, l, o :: !MarkedInWindow(s0, steps, k, i, j, l, o)
  }

  /** The only mark of this run is its first step. */
  lemma FailedLoadRunHasNoWindow(document: Document, outcome: LoadOutcome, k: Key, v: Value)
    requires Feasible(Start(document, outcome), FailedLoadSteps(k, v))
    ensures NoMarkInAWindow(Start(document, outcome), FailedLoadSteps(k, v))
  {
    var s0, steps := Start(document, outcome), FailedLoadSteps(k, v);
    assert forall j | 0 < j < |steps| :: !steps[j].Update? && !steps[j].UpdateAll?;
    assert forall j, m | 0 < j :: !MarksAt(s0, steps, j, m);
  }

  /** Windows are the only way to be clean and behind, in every run, exactly when the load did not
      fail on a missing document. */
  lemma CleanAndBehindIff(document: Document, outcome: LoadOutcome)
    requires Answerable(document, outcome)
    ensures (forall steps | Feasible(Start(document, outcome), steps) ::
               BehindOnlyByWindows(Start(document, outcome), steps))
            <==> !FailsOnMissing(document, outcome)
  {
    var s0 := Start(document, outcome);
    if FailsOnMissing(document, outcome) {
      FailedLoadRun(document, outcome, "", "");
      FailedLoadRunHasNoWindow(document, outcome, "", "");
      var s := After(s0, FailedLoadSteps("", ""));
      assert "" in s.modules && "" !in DirtyKeys(s) && !UpToDate(s, "");
      assert !BehindOnlyByWindows(s0, FailedLoadSteps("", ""));
    } else {
      forall steps | Feasible(s0, steps) ensures BehindOnlyByWindows(s0, steps) {
        var s := After(s0, steps);
        forall k | k in s.modules && k !in DirtyKeys(s) && !UpToDate(s, k)
          ensures exists i, j, l, o :: MarkedInWindow(s0, steps, k, i, j, l, o)
        {
          CleanAndBehindWasMarkedInAWindow(document, outcome, steps, k);
        }
      }
    }
  }

  // ----- clean and stored -----

  /** Without a mark in a window every key is dirty or stored. A clean model is stored exactly,
      except that modules which a failed load did not see may still lie beside it. */
  lemma CleanIsStored(document: Document, outcome: LoadOutcome, steps: seq<Step>)
    requires Answerable(document, outcome) && !FailsOnMissing(document, outcome)
    requires Feasible(Start(document, outcome), steps) && NoMarkInAWindow(Start(document, outcome), steps)
    ensures var s := After(Start(document, outcome), steps);
            && (forall k | k in s.modules :: k in DirtyKeys(s) || UpToDate(s, k))
            && (!IsDirty(s) ==>
                  || s.document == Present(s.modules)
                  || (LoadFailed(outcome) && s.document == Present(DocumentModules(document) + s.modules)))
  {
    var s0, t0 := Start(document, outcome), Baseline(document, outcome);
    CoveredByBaseline(document, outcome, steps);
    BaselineStart(document, outcome);
    forall k | k in WatchAfter(t0, steps).lost ensures false {
      var i, j, l, o := LostHasWitness(t0, steps, k);
      SameWindows(s0, t0, DocumentModules(document), steps, k, i, j, l, o);
    }
    NothingLost(After(t0, steps), WatchAfter(t0, steps));
  }

  lemma NothingLost(t: State, w: Watch)
    requires Inv(t, w) && w.lost == {}
    ensures forall k | k in t.modules :: k in DirtyKeys(t) || UpToDate(t, k)
    ensures !IsDirty(t) ==> t.document == Present(t.modules)
  {
    if !IsDirty(t) {
      assert DocumentModules(t.document).Keys == t.modules.Keys;
      assert DocumentModules(t.document) == t.modules;
    }
  }

  ghost predicate CleanMeansStored(s0: State, steps: seq<Step>)
    requires Feasible(s0, steps)
  {
    var s := After(s0, steps);
    NoMarkInAWindow(s0, steps) && !IsDirty(s) ==> s.document == Present(s.modules)
  }

  ghost predicate StoppedMeansStored(s0: State, steps: seq<Step>)
    requires Feasible(s0, steps)
  {
    var s := After(s0, steps);
    NoMarkInAWindow(s0, steps) && !s.running ==> s.document == Present(s.modules)
  }

  /** The load was answered, or it failed on a document without modules. */
  predicate StartsEqual(document: Document, outcome: LoadOutcome) {
    Truthful(document, outcome) || document == Present(map[])
  }

  /** Without a mark in a window a clean model is stored exactly, in every run, exactly when memory
      starts out equal to the store. */
  lemma CleanIsStoredIff(document: Document, outcome: LoadOutcome)
    requires Answerable(document, outcome)
    ensures (forall steps | Feasible(Start(document, outcome), steps) ::
               CleanMeansStored(Start(document, outcome), steps))
            <==> StartsEqual(document, outcome)
  {
    var s0 := Start(document, outcome);
    if StartsEqual(document, outcome) {
      forall steps | Feasible(s0, steps) ensures CleanMeansStored(s0, steps) {
        if NoMarkInAWindow(s0, steps) {
          CleanIsStored(document, outcome, steps);
          var m := After(s0, steps).modules;
          assert LoadFailed(outcome) ==> DocumentModules(document) + m == m;
        }
      }
    } else {
      assert Feasible(s0, []) && After(s0, []) == s0;
      assert NoMarkInAWindow(s0, []);
      assert !CleanMeansStored(s0, []);
    }
  }

  lemma {:induction false} StoppedIsClean(s0: State, steps: seq<Step>)
    requires s0.running && Feasible(s0, steps) && !After(s0, steps).running
    ensures !IsDirty(After(s0, steps))
    decreases |steps|
  {
    var before := steps[..|steps| - 1];
    if !After(s0, before).running {
      StoppedIsClean(s0, before);
    }
  }

  /** A stop that completes leaves the store behind only for keys whose newest mark fell into a
      window. */
  lemma StoppedIsStored(document: Document, outcome: LoadOutcome, steps: seq<Step>)
    requires Answerable(document, outcome) && !FailsOnMissing(document, outcome)
    requires Feasible(Start(document, outcome), steps) && !After(Start(document, outcome), steps).running
    ensures var s := After(Start(document, outcome), steps);
            forall k | k in s.modules && !UpToDate(s, k) ::
              exists i, j, l, o :: MarkedInWindow(Start(document, outcome), steps, k, i, j, l, o)
  {
    var s0 := Start(document, outcome);
    var s := After(s0, steps);
    StoppedIsClean(s0, steps);
    forall k | k in s.modules && !UpToDate(s, k)
      ensures exists i, j, l, o :: MarkedInWindow(s0, steps, k, i, j, l, o)
    {
      CleanAndBehindWasMarkedInAWindow(document, outcome, steps, k);
    }
  }

  /** Without a mark in a window a completed stop leaves the store equal to memory, in every run,
      exactly when memory started out equal to the store. */
  lemma StoppedIsStoredIff(document: Document, outcome: LoadOutcome)
    requires Answerable(document, outcome)
    ensures (forall steps | Feasible(Start(document, outcome), steps) ::
               StoppedMeansStored(Start(document, outcome), steps))
            <==> StartsEqual(document, outcome)
  {
    var s0 := Start(document, outcome);
    if StartsEqual(document, outcome) {
      forall steps | Feasible(s0, steps) ensures StoppedMeansStored(s0, steps) {
        if !After(s0, steps).running {
          StoppedIsClean(s0, steps);
          CleanIsStoredIff(document, outcome);
          assert CleanMeansStored(s0, steps);
        }
      }
    } else {
      var s1 := Apply(s0, Stop([]));
      RunThrough([s0, s1], [Stop([])]);
      assert NoMarkInAWindow(s0, [Stop([])]);
      assert !StoppedMeansStored(s0, [Stop([])]);
    }
  }

  // ----- marks -----

  lemma MarkStep(s: State, e: Step, k: Key)
    requires Enabled(s, e) && s.dirties <= s.modules.Keys
    ensures Apply(s, e).dirties <= Apply(s, e).modules.Keys
    ensures k in Marks(s, e) ==> k in DirtyKeys(Apply(s, e))
    ensures k in DirtyKeys(s) && !e.AckOk? && Apply(s, e).running ==> k in DirtyKeys(Apply(s, e))
  {
  }

  lemma {:induction false} DirtiesExist(s0: State, steps: seq<Step>)
    requires s0.dirties <= s0.modules.Keys && Feasible(s0, steps)
    ensures After(s0, steps).dirties <= After(s0, steps).modules.Keys
    decreases |steps|
  {
    if steps != [] {
      DirtiesExist(s0, steps[..|steps| - 1]);
      MarkStep(After(s0, steps[..|steps| - 1]), steps[|steps| - 1], "");
    }
  }

  /** Failures keep every mark: a marked key stays dirty until a success notification arrives
      or the actor stops. */
  lemma {:induction false} MarkSurvivesFailures(s0: State, steps: seq<Step>, j: nat, k: Key)
    requires s0.dirties <= s0.modules.Keys && Feasible(s0, steps) && MarksAt(s0, steps, j, k)
    requires forall l | j < l < |steps| :: !steps[l].AckOk?
    requires After(s0, steps).running
    ensures k in DirtyKeys(After(s0, steps))
    decreases |steps|
  {
    DirtiesExist(s0, steps[..|steps| - 1]);
    MarkStep(After(s0, steps[..|steps| - 1]), steps[|steps| - 1], k);
    if j < |steps| - 1 {
      PrefixMark(s0, steps, j, k);
      MarkSurvivesFailures(s0, steps[..|steps| - 1], j, k);
    }
  }

  /** The success notification of save `id` keeps "clean means stored" exactly when every dirty
      key marked since that save's extraction happens to be stored already. */
  lemma AckKeepsCleanStoredIff(s: State, w: Watch, id: nat)
    requires s.dirties <= s.modules.Keys && Accounted(s, w) && Enabled(s, AckOk(id))
    requires forall k | k in s.modules && k !in DirtyKeys(s) :: UpToDate(s, k)
    ensures var t := Apply(s, AckOk(id));
            (forall k | k in t.modules && k !in DirtyKeys(t) :: UpToDate(t, k)) <==>
            (forall k | k in DirtyKeys(s) && k in w.since[id] :: UpToDate(s, k))
  {
    var t := Apply(s, AckOk(id));
    assert forall k | k in s.modules :: UpToDate(t, k) == UpToDate(s, k);
  }

  // ----- the missing document -----

  ghost predicate UpsertsWhileMissing(s: State) {
    s.document.Absent? ==> s.all && Extract(s).upsert && forall i | 0 <= i < |s.queue| :: s.queue[i].upsert
  }

  /** Only upserts are ever sent to a missing document, in every run, exactly when the load did
      not fail on a missing document. */
  lemma UpsertsWhileMissingIff(document: Document, outcome: LoadOutcome)
    requires Answerable(document, outcome)
    ensures (forall steps | Feasible(Start(document, outcome), steps) ::
               UpsertsWhileMissing(After(Start(document, outcome), steps)))
            <==> !FailsOnMissing(document, outcome)
  {
    var s0 := Start(document, outcome);
    assert Feasible(s0, []) && After(s0, []) == s0;
    if !FailsOnMissing(document, outcome) {
      forall steps | Feasible(s0, steps) ensures UpsertsWhileMissing(After(s0, steps)) {
        AbsentAfter(s0, steps);
      }
    }
  }

  // ----- convergence -----

  /** The steps of a system that is left alone and does not fail. */
  predicate Quiet(e: Step) {
    (e.TimerFires? && e.submitted) || (e.RunHead? && e.outcome.Stored?) || e.AckOk? || e.AckFailed?
  }

  function Work(s: State): nat {
    (if s.saveTimer != NO_TIMER then 4 else 0) + 3 * |s.queue| + |s.okAcks| + 5 * |s.failAcks|
  }

  lemma QuietTimerWorks(s: State, timer: nat)
    requires OneTimer(s) && timer in s.liveTimers
    ensures Work(OnSaveTimer(s, timer, true)) < Work(s)
  {
    var t := OnSaveTimer(s, timer, true);
    assert t.saveTimer == NO_TIMER && |t.queue| == |s.queue| + 1;
  }

  lemma QuietRunWorks(s: State)
    requires FreshIds(s) && s.queue != []
    ensures Work(RunQueued(s, Stored)) < Work(s)
  {
    var t := RunQueued(s, Stored);
    assert s.queue[0].id !in s.okAcks && |t.queue| == |s.queue| - 1;
    assert |t.okAcks| == |s.okAcks| + 1;
  }

  lemma QuietAckOkWorks(s: State, id: nat)
    requires id in s.okAcks
    ensures Work(ClearDirty(s.(okAcks := s.okAcks - {id}))) < Work(s)
  {
    assert s.okAcks == (s.okAcks - {id}) + {id};
  }

  lemma QuietAckFailedWorks(s: State, id: nat)
    requires id in s.failAcks
    ensures Work(StartSaveTimer(s.(failAcks := s.failAcks - {id}))) < Work(s)
  {
    assert s.failAcks == (s.failAcks - {id}) + {id};
  }

  lemma QuietStepWorks(s: State, e: Step)
    requires OneTimer(s) && FreshIds(s) && Enabled(s, e) && Quiet(e)
    ensures Work(Apply(s, e)) < Work(s)
  {
    match e
    case TimerFires(timer, _) => QuietTimerWorks(s, timer);
    case RunHead(_) => QuietRunWorks(s);
    case AckOk(id) => QuietAckOkWorks(s, id);
    case AckFailed(id) => QuietAckFailedWorks(s, id);
  }

  lemma QuietStepExists(s: State)
    requires OneTimer(s) && s.running && Work(s) > 0
    ensures exists e :: Quiet(e) && Enabled(s, e)
  {
    if s.saveTimer != NO_TIMER {
      assert Quiet(TimerFires(s.saveTimer, true)) && Enabled(s, TimerFires(s.saveTimer, true));
    } else if s.queue != [] {
      assert Quiet(RunHead(Stored)) && Enabled(s, RunHead(Stored));
    } else if s.okAcks != {} {
      var id :| id in s.okAcks;
      assert Quiet(AckOk(id)) && Enabled(s, AckOk(id));
    } else {
      assert s.failAcks != {};
      var id :| id in s.failAcks;
      assert Quiet(AckFailed(id)) && Enabled(s, AckFailed(id));
    }
  }

  // ----- what a quiet run saves -----

  /** `k` was not lost, and no save on its way was extracted before a mark of `k`. */
  ghost predicate Saved(s: State, w: Watch, k: Key) {
    && k !in w.lost
    && (forall i | 0 <= i < |s.queue| && s.queue[i].id in w.since :: k !in w.since[s.queue[i].id])
    && (forall id | id in s.okAcks && id in w.since :: k !in w.since[id])
  }

  lemma SavedStep(s: State, w: Watch, e: Step, k: Key)
    requires FreshIds(s) && Saved(s, w, k) && Enabled(s, e) && Quiet(e)
    ensures Saved(Apply(s, e), Observe(s, w, e), k)
  {
    var t, v := Apply(s, e), Observe(s, w, e);
    if e.TimerFires? {
      assert forall i | 0 <= i < |s.queue| :: t.queue[i] == s.queue[i] && t.queue[i].id != s.nextOp;
    } else if e.RunHead? {
      assert forall i | 0 <= i < |t.queue| :: t.queue[i] == s.queue[i + 1];
    }
  }

  lemma {:induction false} QuietRun(s0: State, w0: Watch, quiet: seq<Step>) returns (w: Watch)
    requires Inv(s0, w0) && s0.running && Feasible(s0, quiet) && forall i | 0 <= i < |quiet| :: Quiet(quiet[i])
    ensures Inv(After(s0, quiet), w) && After(s0, quiet).running && After(s0, quiet).modules == s0.modules
    ensures forall k | Saved(s0, w0, k) :: Saved(After(s0, quiet), w, k)
    decreases |quiet|
  {
    if quiet == [] {
      w := w0;
    } else {
      var before, e := quiet[..|quiet| - 1], quiet[|quiet| - 1];
      assert forall i | 0 <= i < |before| :: Quiet(before[i]);
      var v := QuietRun(s0, w0, before);
      w := Observe(After(s0, before), v, e);
      InvStep(After(s0, before), v, e);
      forall k | Saved(s0, w0, k) ensures Saved(After(s0, quiet), w, k) {
        SavedStep(After(s0, before), v, e, k);
      }
    }
  }

  lemma {:induction false} QuietRunWorksDown(s: State, quiet: seq<Step>)
    requires Healthy(s) && s.running && Feasible(s, quiet) && forall i | 0 <= i < |quiet| :: Quiet(quiet[i])
    ensures Healthy(After(s, quiet)) && After(s, quiet).running
    ensures |quiet| + Work(After(s, quiet)) <= Work(s)
    decreases |quiet|
  {
    if quiet != [] {
      var before, e := quiet[..|quiet| - 1], quiet[|quiet| - 1];
      assert forall i | 0 <= i < |before| :: Quiet(before[i]);
      QuietRunWorksDown(s, before);
      TimerStep(After(s, before), e);
      IdsStep(After(s, before), e);
      QuietStepWorks(After(s, before), e);
    }
  }

  ghost predicate AtRest(t: State) {
    forall e | Quiet(e) :: !Enabled(t, e)
  }

  /** Left alone, the system comes to rest, whatever the load reported: every quiet run is bounded
      by the work at its start, and where no quiet step is left the model is clean and nothing is
      in flight. */
  lemma QuietRunsComeToRest(document: Document, outcome: LoadOutcome, steps: seq<Step>, quiet: seq<Step>)
    requires Feasible(Start(document, outcome), steps)
    requires var s := After(Start(document, outcome), steps);
             && s.running && Feasible(s, quiet) && forall i | 0 <= i < |quiet| :: Quiet(quiet[i])
    ensures var s := After(Start(document, outcome), steps);
            var t := After(s, quiet);
            && |quiet| <= Work(s)
            && (AtRest(t) ==>
                  !IsDirty(t) && t.queue == [] && t.okAcks == {} && t.failAcks == {} && t.liveTimers == {})
  {
    var s := After(Start(document, outcome), steps);
    HealthyAfter(Start(document, outcome), steps);
    QuietRunWorksDown(s, quiet);
    var t := After(s, quiet);
    if AtRest(t) {
      if Work(t) > 0 {
        QuietStepExists(t);
      }
      assert |t.okAcks| == 0 && |t.failAcks| == 0 && |t.queue| == 0;
    }
  }

  /** Save `o` is queued, or its success notification is on its way. */
  ghost predicate OnItsWay(s: State, o: nat) {
    o in s.okAcks || exists n | 0 <= n < |s.queue| :: s.queue[n].id == o
  }

  /** `k` was marked after the extraction of a save that is still on its way. */
  ghost predicate MarkedInOpenWindow(s0: State, steps: seq<Step>, k: Key, i: int, j: int, o: nat)
    requires Feasible(s0, steps)
  {
    i < j && ExtractsAt(s0, steps, i, o) && MarksAt(s0, steps, j, k) && OnItsWay(After(s0, steps), o)
  }

  /** Why a key may be left behind by a quiet run: its newest mark was in a window, or is in one
      that is still open. */
  ghost predicate MayBeLeftBehind(s0: State, steps: seq<Step>, k: Key)
    requires Feasible(s0, steps)
  {
    || (exists i, j, l, o :: MarkedInWindow(s0, steps, k, i, j, l, o))
    || (exists i, j, o :: MarkedInOpenWindow(s0, steps, k, i, j, o))
  }

  lemma NotSavedMayBeLeftBehind(s0: State, steps: seq<Step>, k: Key)
    requires Feasible(s0, steps) && Inv(After(s0, steps), WatchAfter(s0, steps))
    requires !Saved(After(s0, steps), WatchAfter(s0, steps), k)
    ensures MayBeLeftBehind(s0, steps, k)
  {
    var s, w := After(s0, steps), WatchAfter(s0, steps);
    if k in w.lost {
      var i, j, l, o := LostHasWitness(s0, steps, k);
    } else {
      var o: nat :| OnItsWay(s, o) && o in w.since && k in w.since[o];
      assert steps != [];
      var i, j := SinceHasWitness(s0, steps, o, k);
      assert MarkedInOpenWindow(s0, steps, k, i, j, o);
    }
  }

  lemma LeftBehindAlike(s0: State, t0: State, earlier: map<Key, Cell>, steps: seq<Step>, k: Key)
    requires Alike(s0, t0, earlier)
    requires Feasible(s0, steps) && Feasible(t0, steps) && MayBeLeftBehind(t0, steps, k)
    ensures MayBeLeftBehind(s0, steps, k)
  {
    if i, j, l, o :| MarkedInWindow(t0, steps, k, i, j, l, o) {
      SameWindows(s0, t0, earlier, steps, k, i, j, l, o);
    } else {
      var i, j, o :| MarkedInOpenWindow(t0, steps, k, i, j, o);
      OverlayRun(s0, t0, earlier, steps);
      SameEvents(s0, t0, earlier, steps, i, k, o);
      SameEvents(s0, t0, earlier, steps, j, k, o);
      assert MarkedInOpenWindow(s0, steps, k, i, j, o);
    }
  }

  /** What was dirty is saved: when a quiet run has come to rest, the store holds every key of
      memory, except keys whose newest mark was made in the window of a save, past or open. */
  lemma QuietRunsSave(document: Document, outcome: LoadOutcome, steps: seq<Step>, quiet: seq<Step>, k: Key)
    requires Answerable(document, outcome) && !FailsOnMissing(document, outcome)
    requires Feasible(Start(document, outcome), steps)
    requires var s := After(Start(document, outcome), steps);
             && s.running && Feasible(s, quiet) && forall i | 0 <= i < |quiet| :: Quiet(quiet[i])
    requires var t := After(After(Start(document, outcome), steps), quiet); AtRest(t) && k in t.modules
    ensures var t := After(After(Start(document, outcome), steps), quiet);
            UpToDate(t, k) || MayBeLeftBehind(Start(document, outcome), steps, k)
  {
    var s0, t0, earlier := Start(document, outcome), Baseline(document, outcome), DocumentModules(document);
    CoveredByBaseline(document, outcome, steps);
    BaselineStart(document, outcome);
    QuietRunsComeToRest(document, outcome, steps, quiet);
    OverlayRun(After(s0, steps), After(t0, steps), earlier, quiet);
    if Saved(After(t0, steps), WatchAfter(t0, steps), k) {
      var w := QuietRun(After(t0, steps), WatchAfter(t0, steps), quiet);
      assert UpToDate(After(After(t0, steps), quiet), k);
    } else {
      NotSavedMayBeLeftBehind(t0, steps, k);
      LeftBehindAlike(s0, t0, earlier, steps, k);
    }
  }

  ghost predicate SavedAtRest(s0: State, steps: seq<Step>, quiet: seq<Step>)
    requires Feasible(s0, steps) && Feasible(After(s0, steps), quiet)
  {
    var t := After(After(s0, steps), quiet);
    AtRest(t) ==> forall k | k in t.modules :: UpToDate(t, k) || MayBeLeftBehind(s0, steps, k)
  }

  ghost predicate IsQuietRun(s: State, quiet: seq<Step>) {
    s.running && Feasible(s, quiet) && forall i | 0 <= i < |quiet| :: Quiet(quiet[i])
  }

  lemma NothingSavedOnMissing(document: Document, outcome: LoadOutcome)
    requires FailsOnMissing(document, outcome)
    ensures var s0, steps := Start(document, outcome), FailedLoadSteps("", "")[..4];
            && Feasible(s0, steps) && IsQuietRun(After(s0, steps), [])
            && !SavedAtRest(s0, steps, [])
  {
    var s0, steps := Start(document, outcome), FailedLoadSteps("", "")[..4];
    FailedLoadRun(document, outcome, "", "");
    var s := FailedLoadAtRest(document, "", "");
    assert After(s, []) == s && AtRest(s) && "" in s.modules && !UpToDate(s, "");
    assert steps == [FailedLoadSteps("", "")[0], TimerFires(1, true), RunHead(Stored), AckOk(0)];
    assert forall j, m | 0 < j :: !MarksAt(s0, steps, j, m);
    assert !MayBeLeftBehind(s0, steps, "");
  }

  /** Quiet runs save everything but keys marked in a window, after every run, exactly when the load
      did not fail on a missing document. */
  lemma QuietRunsSaveIff(document: Document, outcome: LoadOutcome)
    requires Answerable(document, outcome)
    ensures (forall steps, quiet | Feasible(Start(document, outcome), steps)
                                   && IsQuietRun(After(Start(document, outcome), steps), quiet) ::
               SavedAtRest(Start(document, outcome), steps, quiet))
            <==> !FailsOnMissing(document, outcome)
  {
    var s0 := Start(document, outcome);
    if FailsOnMissing(document, outcome) {
      NothingSavedOnMissing(document, outcome);
    } else {
      forall steps, quiet | Feasible(s0, steps) && IsQuietRun(After(s0, steps), quiet)
        ensures SavedAtRest(s0, steps, quiet)
      {
        var t := After(After(s0, steps), quiet);
        if AtRest(t) {
          forall k | k in t.modules ensures UpToDate(t, k) || MayBeLeftBehind(s0, steps, k) {
            QuietRunsSave(document, outcome, steps, quiet, k);
          }
        }
      }
    }
  }
}
