/** Concrete runs of the save protocol. */
module PersistRuns {
  import opened PersistProtocol

  lemma {:induction false} RunThrough(states: seq<State>, run: seq<Step>)
    requires Leads(states, run)
    ensures Feasible(states[0], run) && After(states[0], run) == states[|run|]
    decreases |run|
  {
    if run != [] {
      RunThrough(states[..|run|], run[..|run| - 1]);
    }
  }

  /** One run of steps `run` leads through `states`. */
  ghost predicate Leads(states: seq<State>, run: seq<Step>) {
    && |states| == |run| + 1
    && forall n | 0 <= n < |run| :: Enabled(states[n], run[n]) && Apply(states[n], run[n]) == states[n + 1]
  }

  lemma LeadOn(states: seq<State>, run: seq<Step>, e: Step)
    requires Leads(states, run) && Enabled(states[|run|], e)
    ensures Leads(states + [Apply(states[|run|], e)], run + [e])
  {
  }

  lemma WriteAndExtract(k: Key, v: Value) returns (states: seq<State>, run: seq<Step>)
    ensures Leads(states, run) && |run| == 2 && states[0] == Start(Present(map[]), Loaded)
    ensures states[2] == State(map[k := Cell(0, v)], {k}, false, 0, {}, 2, [Op(0, map[k := Cell(0, v)], false)], 1,
                               {}, {}, Present(map[]), true)
  {
    var write := Update(map[k := v], [k]);
    var s0 := Start(Present(map[]), Loaded);
    var s1 := Apply(s0, write);
    assert s1.modules == map[k := Cell(0, v)] && s1.dirties == {k} && s1.liveTimers == {1};
    var s2 := Apply(s1, TimerFires(1, true));
    assert s2.queue[0].payload == map[k := Cell(0, v)] && s2.liveTimers == {};
    states, run := [s0, s1, s2], [write, TimerFires(1, true)];
  }

  /** A key written twice, first before and then after the extraction of a save, up to the
      moment that save was stored. */
  lemma WriteSaveWrite(k: Key, v: Value) returns (states: seq<State>, run: seq<Step>)
    ensures Leads(states, run) && |run| == 4 && states[0] == Start(Present(map[]), Loaded)
    ensures states[4] == State(map[k := Cell(1, v)], {k}, false, 2, {2}, 3, [], 1, {0}, {},
                               Present(map[k := Cell(0, v)]), true)
  {
    var write := Update(map[k := v], [k]);
    states, run := WriteAndExtract(k, v);
    var s3 := Apply(states[2], write);
    assert s3.modules == map[k := Cell(1, v)] && s3.dirties == {k} && s3.liveTimers == {2};
    LeadOn(states, run, write);
    states, run := states + [s3], run + [write];
    var s4 := Apply(s3, RunHead(Stored));
    assert s4.document.modules == map[k := Cell(0, v)] && s4.okAcks == {0} && s4.queue == [];
    LeadOn(states, run, RunHead(Stored));
    states, run := states + [s4], run + [RunHead(Stored)];
  }

  /** The notification of that save removes the second mark: with nothing left in flight but an
      empty save, the store stays behind for good. */
  lemma LostMark(k: Key, v: Value) returns (steps: seq<Step>)
    ensures var s0 := Start(Present(map[]), Loaded);
            && Feasible(s0, steps)
            && var s := After(s0, steps);
               && s.running && s.modules == map[k := Cell(1, v)] && !IsDirty(s)
               && s.queue == [] && s.okAcks == {} && s.failAcks == {} && s.liveTimers == {}
               && s.document == Present(map[k := Cell(0, v)])
  {
    var states, run := WriteSaveWrite(k, v);
    var s5 := Apply(states[4], AckOk(0));
    assert s5.okAcks == {};
    var s6 := Apply(s5, TimerFires(2, true));
    assert s6.queue[0].payload == map[] && s6.liveTimers == {};
    var s7 := Apply(s6, RunHead(Stored));
    assert s7.document.modules == map[k := Cell(0, v)] && s7.okAcks == {1} && s7.queue == [];
    var s8 := Apply(s7, AckOk(1));
    assert s8.okAcks == {};
    steps := run + [AckOk(0), TimerFires(2, true), RunHead(Stored), AckOk(1)];
    RunThrough(states + [s5, s6, s7, s8], steps);
  }

  /** What the store holds after one partial save of `k` on top of `document`. */
  function Overwritten(document: Document, k: Key, c: Cell): Document {
    match document
    case Absent => Absent
    case Present(modules) => Present(modules[k := c])
  }

  function FailedLoadSteps(k: Key, v: Value): seq<Step> {
    [Update(map[k := v], [k]), TimerFires(1, true), RunHead(Stored), AckOk(0), Stop([])]
  }

  /** The running actor of that run, before it stops: clean, with nothing in flight. */
  function FailedLoadAtRest(document: Document, k: Key, v: Value): State {
    State(map[k := Cell(0, v)], {}, false, 0, {}, 2, [], 1, {}, {}, Overwritten(document, k, Cell(0, v)), true)
  }

  /** After a failed load the actor works on empty memory. Its next save succeeds and the actor
      stops clean: a missing document was never created, an existing one lost the module. */
  lemma FailedLoadRun(document: Document, outcome: LoadOutcome, k: Key, v: Value)
    requires LoadFailed(outcome)
    ensures var s0, steps := Start(document, outcome), FailedLoadSteps(k, v);
            && Feasible(s0, steps)
            && var s := After(s0, steps);
               && !s.running && !IsDirty(s) && s.modules == map[k := Cell(0, v)]
               && s.document == Overwritten(document, k, Cell(0, v))
    ensures var s0, steps := Start(document, outcome), FailedLoadSteps(k, v)[..4];
            Feasible(s0, steps) && After(s0, steps) == FailedLoadAtRest(document, k, v)
  {
    var states := FailedLoadStart(document, outcome, k, v);
    var steps := FailedLoadSteps(k, v);
    FailedLoadRest(document, k, v, states[2]);
    var s3 := Apply(states[2], RunHead(Stored));
    var s4 := Apply(s3, AckOk(0));
    var s5 := Apply(s4, Stop([]));
    states := states + [s3, s4, s5];
    assert Leads(states, steps);
    RunThrough(states, steps);
    RunThrough(states[..5], steps[..4]);
  }

  lemma FailedLoadStart(document: Document, outcome: LoadOutcome, k: Key, v: Value) returns (states: seq<State>)
    requires LoadFailed(outcome)
    ensures |states| == 3 && states[0] == Start(document, outcome)
    ensures forall n | 0 <= n < 2 ::
              Enabled(states[n], FailedLoadSteps(k, v)[n])
              && Apply(states[n], FailedLoadSteps(k, v)[n]) == states[n + 1]
    ensures states[2] == State(map[k := Cell(0, v)], {k}, false, 0, {}, 2, [Op(0, map[k := Cell(0, v)], false)], 1,
                               {}, {}, document, true)
  {
    var steps := FailedLoadSteps(k, v);
    var s0 := Start(document, outcome);
    var s1 := Apply(s0, steps[0]);
    assert s1.modules == map[k := Cell(0, v)] && s1.dirties == {k} && s1.liveTimers == {1};
    var s2 := Apply(s1, steps[1]);
    assert s2.queue[0].payload == map[k := Cell(0, v)] && s2.liveTimers == {};
    states := [s0, s1, s2];
  }

  lemma FailedLoadRest(document: Document, k: Key, v: Value, s2: State)
    requires s2 == State(map[k := Cell(0, v)], {k}, false, 0, {}, 2, [Op(0, map[k := Cell(0, v)], false)], 1,
                         {}, {}, document, true)
    ensures var steps := FailedLoadSteps(k, v);
            && Enabled(s2, steps[2]) && Enabled(Apply(s2, steps[2]), steps[3])
            && var s4 := Apply(Apply(s2, steps[2]), steps[3]);
               && s4 == FailedLoadAtRest(document, k, v) && Enabled(s4, steps[4])
               && var s := Apply(s4, steps[4]);
                  && !s.running && !IsDirty(s) && s.modules == map[k := Cell(0, v)]
                  && s.document == Overwritten(document, k, Cell(0, v))
  {
    var s3 := Apply(s2, RunHead(Stored));
    assert document.Present? ==> document.modules + map[k := Cell(0, v)] == document.modules[k := Cell(0, v)];
    assert s3.document == Overwritten(document, k, Cell(0, v)) && s3.okAcks == {0};
    assert s3.okAcks - {0} == {};
  }

  /** The same failed load followed by a full update: the old modules are gone at once. */
  lemma FailedLoadFullUpdate(document: Document, outcome: LoadOutcome) returns (steps: seq<Step>)
    requires LoadFailed(outcome)
    ensures var s0 := Start(document, outcome);
            && Feasible(s0, steps)
            && var s := After(s0, steps); s.document == document && s.queue == [Op(0, map[], true)]
  {
    var s0 := Start(document, outcome);
    var s1 := Apply(s0, UpdateAll(map[]));
    assert s1.modules == map[] && s1.all && s1.liveTimers == {1};
    var s2 := Apply(s1, TimerFires(1, true));
    steps := [UpdateAll(map[]), TimerFires(1, true)];
    RunThrough([s0, s1, s2], steps);
  }
}
