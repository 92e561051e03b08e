/** What gets into the store: only what memory held, and only forward. Both can fail after a failed
    load, and exactly then. */
module PersistHistory {
  import opened PersistProtocol
  import opened PersistInvariants
  import opened PersistRuns

  // ----- forward only -----

  /** From any start whose store is not ahead of memory, store contents move forward only, from
      any point of a run to any later one. */
  lemma {:induction false} StoredNeverGoesBack(s0: State, steps: seq<Step>, i: nat)
    requires VersionChain(s0) && Feasible(s0, steps) && i <= |steps|
    ensures Feasible(s0, steps[..i])
    ensures Grows(DocumentModules(After(s0, steps[..i]).document), DocumentModules(After(s0, steps).document))
    decreases |steps|
  {
    if i == |steps| {
      assert steps[..i] == steps;
    } else {
      var before := steps[..|steps| - 1];
      assert before[..i] == steps[..i];
      StoredNeverGoesBack(s0, before, i);
      ChainAfter(s0, before);
      ChainStep(After(s0, before), steps[|steps| - 1]);
      GrowsTrans(DocumentModules(After(s0, steps[..i]).document),
                 DocumentModules(After(s0, before).document), DocumentModules(After(s0, steps).document));
    }
  }

  ghost predicate MovesForward(s0: State, steps: seq<Step>, i: int)
    requires Feasible(s0, steps) && 0 <= i <= |steps|
  {
    && Feasible(s0, steps[..i])
    && Grows(DocumentModules(After(s0, steps[..i]).document), DocumentModules(After(s0, steps).document))
  }

  /** Nothing stored can be lost by starting from this load: it was answered, or there was
      nothing. */
  predicate NothingToLose(document: Document, outcome: LoadOutcome) {
    Truthful(document, outcome) || DocumentModules(document) == map[]
  }

  /** Stored contents go forward only, in every run, exactly when the load did not fail on stored
      contents. */
  lemma StoredNeverGoesBackIff(document: Document, outcome: LoadOutcome)
    requires Answerable(document, outcome)
    ensures (forall steps, i | Feasible(Start(document, outcome), steps) && 0 <= i <= |steps| ::
               MovesForward(Start(document, outcome), steps, i))
            <==> NothingToLose(document, outcome)
  {
    var s0 := Start(document, outcome);
    if NothingToLose(document, outcome) {
      forall steps, i | Feasible(s0, steps) && 0 <= i <= |steps| ensures MovesForward(s0, steps, i) {
        StoredNeverGoesBack(s0, steps, i);
      }
    } else {
      var k :| k in DocumentModules(document);
      var v := document.modules[k].value + "'";
      var steps := FailedLoadSteps(k, v);
      FailedLoadRun(document, outcome, k, v);
      assert steps[..0] == [];
      assert After(s0, steps).document.modules[k] == Cell(0, v) != document.modules[k];
      assert !MovesForward(s0, steps, 0);
    }
  }

  // ----- only what memory held -----

  /** Memory held content `c` for module `k` after the first `i` steps. */
  ghost predicate HeldAt(s0: State, steps: seq<Step>, i: int, k: Key, c: Cell) {
    && 0 <= i <= |steps| && Feasible(s0, steps[..i])
    && var m := After(s0, steps[..i]).modules; k in m && m[k] == c
  }

  ghost predicate Held(s0: State, steps: seq<Step>, k: Key, c: Cell) {
    exists i :: HeldAt(s0, steps, i, k, c)
  }

  ghost predicate AllHeld(s0: State, steps: seq<Step>, cells: map<Key, Cell>) {
    forall k | k in cells :: Held(s0, steps, k, cells[k])
  }

  lemma HeldLonger(s0: State, steps: seq<Step>, cells: map<Key, Cell>)
    requires steps != [] && AllHeld(s0, steps[..|steps| - 1], cells)
    ensures AllHeld(s0, steps, cells)
  {
    var before := steps[..|steps| - 1];
    forall k | k in cells ensures Held(s0, steps, k, cells[k]) {
      var i :| HeldAt(s0, before, i, k, cells[k]);
      assert before[..i] == steps[..i];
      assert HeldAt(s0, steps, i, k, cells[k]);
    }
  }

  lemma HeldNow(s0: State, steps: seq<Step>, cells: map<Key, Cell>)
    requires Feasible(s0, steps)
    requires forall k | k in cells :: k in After(s0, steps).modules && After(s0, steps).modules[k] == cells[k]
    ensures AllHeld(s0, steps, cells)
  {
    assert steps[..|steps|] == steps;
    assert forall k | k in cells :: HeldAt(s0, steps, |steps|, k, cells[k]);
  }

  /** The cell was in the store at the start. */
  ghost predicate Inherited(s0: State, k: Key, c: Cell) {
    k in DocumentModules(s0.document) && DocumentModules(s0.document)[k] == c
  }

  ghost predicate StoreKnown(s0: State, steps: seq<Step>)
    requires Feasible(s0, steps)
  {
    var s := After(s0, steps);
    && (forall k | k in DocumentModules(s.document) ::
          || Held(s0, steps, k, DocumentModules(s.document)[k])
          || Inherited(s0, k, DocumentModules(s.document)[k]))
    && forall i | 0 <= i < |s.queue| :: AllHeld(s0, steps, s.queue[i].payload)
  }

  /** Where a cell of the store or of the queue comes from in one step. */
  ghost predicate FromModules(cells: map<Key, Cell>, source: map<Key, Cell>, k: Key)
    requires k in cells
  {
    k in source && source[k] == cells[k]
  }

  lemma {:induction false} AttemptSource(document: Document, op: Op, attempts: seq<Outcome>, k: Key)
    requires k in DocumentModules(Attempt(document, op, attempts).0)
    ensures var cells := DocumentModules(Attempt(document, op, attempts).0);
            FromModules(cells, DocumentModules(document), k) || FromModules(cells, op.payload, k)
    decreases attempts
  {
    if attempts != [] {
      match attempts[0]
      case Stored =>
      case Rejected => AttemptSource(document, op, attempts[1..], k);
      case StoredButReportedFailed => AttemptSource(ApplyOp(document, op), op, attempts[1..], k);
    }
  }

  lemma StoreSource(s: State, e: Step, k: Key)
    requires Enabled(s, e) && k in DocumentModules(Apply(s, e).document)
    ensures var cells := DocumentModules(Apply(s, e).document);
            || FromModules(cells, DocumentModules(s.document), k)
            || (s.queue != [] && FromModules(cells, s.queue[0].payload, k))
            || FromModules(cells, s.modules, k)
  {
    if e.Stop? && IsDirty(s) {
      AttemptSource(s.document, Extract(s), e.attempts, k);
    }
  }

  lemma QueueSource(s: State, e: Step, i: int, k: Key)
    requires Enabled(s, e) && 0 <= i < |Apply(s, e).queue| && k in Apply(s, e).queue[i].payload
    ensures var cells := Apply(s, e).queue[i].payload;
            || FromModules(cells, s.modules, k)
            || exists j | 0 <= j < |s.queue| :: FromModules(cells, s.queue[j].payload, k)
  {
    var t := Apply(s, e);
    if e.RunHead? {
      assert t.queue[i] == s.queue[i + 1];
    } else if i < |s.queue| {
      assert t.queue[i] == s.queue[i];
    } else {
      assert FromModules(t.queue[i].payload, s.modules, k);
    }
  }

  lemma StoreKnownStep(s0: State, steps: seq<Step>)
    requires Feasible(s0, steps) && steps != [] && StoreKnown(s0, steps[..|steps| - 1])
    ensures StoreKnown(s0, steps)
  {
    var before, e := steps[..|steps| - 1], steps[|steps| - 1];
    var s := After(s0, before);
    HeldNow(s0, before, s.modules);
    HeldLonger(s0, steps, s.modules);
    forall i | 0 <= i < |s.queue| ensures AllHeld(s0, steps, s.queue[i].payload) {
      HeldLonger(s0, steps, s.queue[i].payload);
    }
    forall k | k in DocumentModules(s.document) && Held(s0, before, k, DocumentModules(s.document)[k])
      ensures Held(s0, steps, k, DocumentModules(s.document)[k])
    {
      var cells := map[k := DocumentModules(s.document)[k]];
      assert AllHeld(s0, before, cells);
      HeldLonger(s0, steps, cells);
      assert k in cells;
    }
    KnownFrom(s0, steps, s, e);
  }

  /** One more step stores or queues only what was stored or queued, or what memory holds. */
  lemma KnownFrom(s0: State, steps: seq<Step>, s: State, e: Step)
    requires Enabled(s, e) && AllHeld(s0, steps, s.modules)
    requires forall k | k in DocumentModules(s.document) ::
               || Held(s0, steps, k, DocumentModules(s.document)[k])
               || Inherited(s0, k, DocumentModules(s.document)[k])
    requires forall i | 0 <= i < |s.queue| :: AllHeld(s0, steps, s.queue[i].payload)
    ensures forall k | k in DocumentModules(Apply(s, e).document) ::
              || Held(s0, steps, k, DocumentModules(Apply(s, e).document)[k])
              || Inherited(s0, k, DocumentModules(Apply(s, e).document)[k])
    ensures forall i | 0 <= i < |Apply(s, e).queue| :: AllHeld(s0, steps, Apply(s, e).queue[i].payload)
  {
    var t := Apply(s, e);
    forall k | k in DocumentModules(t.document)
      ensures Held(s0, steps, k, DocumentModules(t.document)[k]) || Inherited(s0, k, DocumentModules(t.document)[k])
    {
      StoreSource(s, e, k);
    }
    forall i | 0 <= i < |t.queue| ensures AllHeld(s0, steps, t.queue[i].payload) {
      forall k | k in t.queue[i].payload ensures Held(s0, steps, k, t.queue[i].payload[k]) {
        QueueSource(s, e, i, k);
      }
    }
  }

  /** After any start, failed or not: everything queued is content that memory held at some point
      of the run, and everything stored is that or has been in the store from the start. */
  lemma {:induction false} StoredWasHeldOrInherited(s0: State, steps: seq<Step>)
    requires s0.queue == [] && Feasible(s0, steps)
    ensures StoreKnown(s0, steps)
    decreases |steps|
  {
    if steps != [] {
      StoredWasHeldOrInherited(s0, steps[..|steps| - 1]);
      StoreKnownStep(s0, steps);
    }
  }

  ghost predicate StoreHeld(s0: State, steps: seq<Step>)
    requires Feasible(s0, steps)
  {
    AllHeld(s0, steps, DocumentModules(After(s0, steps).document))
  }

  /** Everything stored is content that memory held in this run, in every run, exactly when the
      load did not fail on stored contents. */
  lemma StoredWasHeldIff(document: Document, outcome: LoadOutcome)
    requires Answerable(document, outcome)
    ensures (forall steps | Feasible(Start(document, outcome), steps) ::
               StoreHeld(Start(document, outcome), steps))
            <==> NothingToLose(document, outcome)
  {
    var s0 := Start(document, outcome);
    if NothingToLose(document, outcome) {
      forall steps | Feasible(s0, steps) ensures StoreHeld(s0, steps) {
        StoredWasHeldOrInherited(s0, steps);
        InheritedWasLoaded(document, outcome, steps);
      }
    } else {
      var k :| k in DocumentModules(document);
      assert Feasible(s0, []) && After(s0, []) == s0;
      assert !Held(s0, [], k, document.modules[k]);
      assert !StoreHeld(s0, []);
    }
  }

  /** What an answered load found in the store, memory held from the start. */
  lemma InheritedWasLoaded(document: Document, outcome: LoadOutcome, steps: seq<Step>)
    requires Answerable(document, outcome) && NothingToLose(document, outcome)
    ensures var s0 := Start(document, outcome);
            forall k, c | Inherited(s0, k, c) :: Held(s0, steps, k, c)
  {
    var s0 := Start(document, outcome);
    forall k, c | Inherited(s0, k, c) ensures Held(s0, steps, k, c) {
      assert steps[..0] == [];
      assert HeldAt(s0, steps, 0, k, c);
    }
  }

  // ----- full updates -----

  function Merged(document: Document, op: Op): Document {
    Present(DocumentModules(document) + op.payload)
  }

  ghost predicate MayMerge(s: State) {
    s.queue != [] && s.queue[0].upsert ==> ApplyOp(s.document, s.queue[0]) == Merged(s.document, s.queue[0])
  }

  /** Replacing the stored modules by a full update and merging it into them agree, in every run,
      exactly when the load did not fail on stored contents. */
  lemma FullUpdateMayMergeIff(document: Document, outcome: LoadOutcome)
    requires Answerable(document, outcome)
    ensures (forall steps | Feasible(Start(document, outcome), steps) ::
               MayMerge(After(Start(document, outcome), steps)))
            <==> NothingToLose(document, outcome)
  {
    var s0 := Start(document, outcome);
    if NothingToLose(document, outcome) {
      forall steps | Feasible(s0, steps) ensures MayMerge(After(s0, steps)) {
        ChainAfter(s0, steps);
        var s := After(s0, steps);
        if s.queue != [] && s.queue[0].upsert {
          assert Covers(s.queue[0], s.document);
          assert DocumentModules(s.document) + s.queue[0].payload == s.queue[0].payload;
        }
      }
    } else {
      var steps := FailedLoadFullUpdate(document, outcome);
      assert DocumentModules(document) + map[] == DocumentModules(document);
      assert !MayMerge(After(s0, steps));
    }
  }
}
