/** Which contents are stored: exactly those that some save carried, extracted after the newest write,
    and those that have been in the store from the start. */
module PersistSaves {
  import opened PersistProtocol
  import opened PersistInvariants
  import opened PersistTheorems
  import opened PersistHistory
  import opened PersistLoads

  // ----- one step -----

  /** At least one of the attempts reaches the store before one reports success. */
  predicate Reaches(attempts: seq<Outcome>) {
    exists i | 0 <= i < |attempts| :: !attempts[i].Rejected?
  }

  /** Repeating an update changes nothing: the attempts of a save amount to one update or none. */
  lemma {:induction false} AttemptIsOneUpdate(document: Document, op: Op, attempts: seq<Outcome>)
    ensures Attempt(document, op, attempts).0 == if Reaches(attempts) then ApplyOp(document, op) else document
    decreases attempts
  {
    if attempts != [] {
      AttemptIsOneUpdate(document, op, attempts[1..]);
      AttemptIsOneUpdate(ApplyOp(document, op), op, attempts[1..]);
      assert ApplyOp(ApplyOp(document, op), op) == ApplyOp(document, op);
      if attempts[0].Rejected? {
        assert Reaches(attempts[1..]) ==> Reaches(attempts);
        assert Reaches(attempts) ==> Reaches(attempts[1..]) by {
          if i :| 0 <= i < |attempts| && !attempts[i].Rejected? {
            assert attempts[1..][i - 1] == attempts[i];
          }
        }
      } else {
        assert Reaches(attempts);
      }
    }
  }

  /** A save reports success exactly when one of its attempts does. */
  lemma {:induction false} AttemptSucceedsIff(document: Document, op: Op, attempts: seq<Outcome>)
    ensures Attempt(document, op, attempts).1 <==> exists i | 0 <= i < |attempts| :: attempts[i].Stored?
    decreases attempts
  {
    if attempts != [] {
      AttemptSucceedsIff(document, op, attempts[1..]);
      AttemptSucceedsIff(ApplyOp(document, op), op, attempts[1..]);
      if !attempts[0].Stored? {
        if i :| 0 <= i < |attempts| && attempts[i].Stored? {
          assert attempts[1..][i - 1] == attempts[i];
        }
      }
    }
  }

  /** A stop completes exactly when nothing was dirty or an attempt of its save reports success, and
      then leaves no mark; otherwise it leaves everything but the store as it was. */
  lemma StopsIff(s: State, attempts: seq<Outcome>)
    requires Enabled(s, Stop(attempts))
    ensures var t := Apply(s, Stop(attempts));
            && (!t.running <==> !IsDirty(s) || exists i | 0 <= i < |attempts| :: attempts[i].Stored?)
            && (t.running ==> t == s.(document := t.document))
            && (!t.running ==> t == s.(running := false, dirties := {}, all := false, document := t.document))
    ensures IsDirty(s) ==> |attempts| == 4
  {
    AttemptSucceedsIff(s.document, Extract(s), attempts);
  }

  /** An update carries the marked modules that exist, or all modules, with what memory holds, and is
      an upsert exactly when everything is marked. */
  lemma ExtractsTheMarked(s: State)
    ensures var op := Extract(s);
            && (op.upsert <==> s.all)
            && (forall k :: k in op.payload <==> k in s.modules && (s.all || k in s.dirties))
            && (forall k | k in op.payload :: op.payload[k] == s.modules[k])
  {
  }

  /** The step carries an update to the store. */
  predicate Saves(s: State, e: Step)
    requires Enabled(s, e)
  {
    (e.RunHead? && !e.outcome.Rejected?) || (e.Stop? && IsDirty(s) && Reaches(e.attempts))
  }

  function Carried(s: State, e: Step): Op
    requires Enabled(s, e) && Saves(s, e)
  {
    if e.RunHead? then s.queue[0] else Extract(s)
  }

  lemma DocumentStep(s: State, e: Step)
    requires Enabled(s, e)
    ensures Apply(s, e).document == if Saves(s, e) then ApplyOp(s.document, Carried(s, e)) else s.document
  {
    if e.Stop? {
      AttemptIsOneUpdate(s.document, Extract(s), e.attempts);
    }
  }

  /** The step stores a content of module `k`. An update of a missing document that is not an
      upsert has no effect. */
  predicate SavesKey(s: State, e: Step, k: Key)
    requires Enabled(s, e)
  {
    && Saves(s, e) && k in Carried(s, e).payload
    && (s.document.Present? || Carried(s, e).upsert)
  }

  /** The step stores a content of module `k`, or replaces everything stored. */
  predicate Touches(s: State, e: Step, k: Key)
    requires Enabled(s, e)
  {
    && Saves(s, e) && (k in Carried(s, e).payload || Carried(s, e).upsert)
    && (s.document.Present? || Carried(s, e).upsert)
  }

  lemma KeyStep(s: State, e: Step, k: Key)
    requires Enabled(s, e)
    ensures var d, t := DocumentModules(s.document), DocumentModules(Apply(s, e).document);
            if SavesKey(s, e, k) then k in t && t[k] == Carried(s, e).payload[k]
            else if Touches(s, e, k) then k !in t
            else (k in t <==> k in d) && (k in t ==> t[k] == d[k])
  {
    DocumentStep(s, e);
  }

  /** The step writes module `k` in memory. */
  predicate Writes(e: Step, k: Key) {
    (e.Update? && k in e.writes) || (e.UpdateAll? && k in e.writesAll)
  }

  lemma UnwrittenStays(s: State, e: Step, k: Key)
    requires Enabled(s, e) && !Writes(e, k)
    ensures k in Apply(s, e).modules <==> k in s.modules
    ensures k in s.modules ==> Apply(s, e).modules[k] == s.modules[k]
  {
  }

  lemma WrittenIsNewer(s: State, e: Step, k: Key)
    requires Enabled(s, e) && k in s.modules && Writes(e, k)
    ensures k in Apply(s, e).modules && s.modules[k].version < Apply(s, e).modules[k].version
  {
  }

  lemma MemoryStep(s: State, e: Step, k: Key)
    requires Enabled(s, e) && k in s.modules
    ensures k in Apply(s, e).modules
    ensures if Writes(e, k) then s.modules[k].version < Apply(s, e).modules[k].version
            else Apply(s, e).modules[k] == s.modules[k]
  {
    if Writes(e, k) {
      WrittenIsNewer(s, e, k);
    } else {
      UnwrittenStays(s, e, k);
    }
  }

  lemma NextOpStep(s: State, e: Step)
    requires Enabled(s, e)
    ensures Apply(s, e).nextOp == s.nextOp + if e.TimerFires? && e.submitted then 1 else 0
  {
  }

  // ----- along a run -----

  ghost function StateAt(s0: State, steps: seq<Step>, n: nat): State
    requires Feasible(s0, steps) && n <= |steps|
  {
    PrefixFeasible(s0, steps, n);
    After(s0, steps[..n])
  }

  lemma StepAt(s0: State, steps: seq<Step>, n: nat)
    requires Feasible(s0, steps) && n < |steps|
    ensures Enabled(StateAt(s0, steps, n), steps[n])
    ensures StateAt(s0, steps, n + 1) == Apply(StateAt(s0, steps, n), steps[n])
  {
    PrefixFeasible(s0, steps, n + 1);
    assert steps[..n + 1][..n] == steps[..n];
  }

  lemma StateAtPrefix(s0: State, steps: seq<Step>, n: nat)
    requires Feasible(s0, steps) && n < |steps|
    ensures Feasible(s0, steps[..|steps| - 1])
    ensures StateAt(s0, steps[..|steps| - 1], n) == StateAt(s0, steps, n)
  {
    assert steps[..|steps| - 1][..n] == steps[..n];
  }

  lemma StateAtEnd(s0: State, steps: seq<Step>)
    requires Feasible(s0, steps)
    ensures StateAt(s0, steps, |steps|) == After(s0, steps)
  {
    assert steps[..|steps|] == steps;
  }

  /** Step `n` stores `k` from an update extracted at step `i`: by the timer, or by the final save
      itself. */
  ghost predicate SavedFrom(s0: State, steps: seq<Step>, k: Key, i: nat, n: nat)
    requires Feasible(s0, steps)
  {
    && i <= n < |steps|
    && Enabled(StateAt(s0, steps, n), steps[n]) && SavesKey(StateAt(s0, steps, n), steps[n], k)
    && if steps[n].Stop? then i == n
       else steps[i].TimerFires? && steps[i].submitted
            && StateAt(s0, steps, i).nextOp == StateAt(s0, steps, n).queue[0].id
  }

  ghost predicate UnwrittenFrom(steps: seq<Step>, k: Key, i: nat) {
    forall m | i <= m < |steps| :: !Writes(steps[m], k)
  }

  /** No step of the run touches `k` in the store. */
  ghost predicate UntouchedBySaves(s0: State, steps: seq<Step>, k: Key)
    requires Feasible(s0, steps)
    decreases |steps|
  {
    steps == [] ||
    (var before := steps[..|steps| - 1];
     UntouchedBySaves(s0, before, k) && !Touches(After(s0, before), steps[|before|], k))
  }

  // ----- where stored contents come from -----

  /** Update `op` was extracted at step `i`. */
  ghost predicate ExtractedAt(s0: State, steps: seq<Step>, op: Op, i: nat)
    requires Feasible(s0, steps)
  {
    && i < |steps| && steps[i].TimerFires? && steps[i].submitted && StateAt(s0, steps, i).nextOp == op.id
    && forall k | k in op.payload ::
         k in StateAt(s0, steps, i).modules && StateAt(s0, steps, i).modules[k] == op.payload[k]
  }

  ghost predicate QueueTraced(s0: State, steps: seq<Step>)
    requires Feasible(s0, steps)
  {
    forall q | 0 <= q < |After(s0, steps).queue| :: Traced(s0, steps, After(s0, steps).queue[q])
  }

  ghost predicate Traced(s0: State, steps: seq<Step>, op: Op)
    requires Feasible(s0, steps)
  {
    exists i :: ExtractedAt(s0, steps, op, i)
  }

  lemma ExtractedEarlier(s0: State, steps: seq<Step>, op: Op, i: nat)
    requires Feasible(s0, steps) && steps != [] && Feasible(s0, steps[..|steps| - 1])
    requires ExtractedAt(s0, steps[..|steps| - 1], op, i)
    ensures ExtractedAt(s0, steps, op, i)
  {
    StateAtPrefix(s0, steps, i);
  }

  lemma ExtractedNow(s0: State, steps: seq<Step>)
    requires Feasible(s0, steps) && steps != [] && steps[|steps| - 1].TimerFires? && steps[|steps| - 1].submitted
    ensures var queue := After(s0, steps).queue;
            queue != [] && Traced(s0, steps, queue[|queue| - 1])
  {
    var before := steps[..|steps| - 1];
    StateAtPrefix(s0, steps, |steps| - 1);
    StateAtEnd(s0, before);
    var queue := After(s0, steps).queue;
    assert ExtractedAt(s0, steps, queue[|queue| - 1], |steps| - 1);
  }

  /** The queue after a step: the one before, without its head, or with one update more. */
  lemma QueueStep(s: State, e: Step)
    requires Enabled(s, e)
    ensures var t := Apply(s, e);
            if e.RunHead? then t.queue == s.queue[1..]
            else if e.TimerFires? && e.submitted then |t.queue| == |s.queue| + 1 && t.queue[..|s.queue|] == s.queue
            else t.queue == s.queue
  {
  }

  lemma {:induction false} QueueIsTraced(s0: State, steps: seq<Step>)
    requires s0.queue == [] && Feasible(s0, steps)
    ensures QueueTraced(s0, steps)
    decreases |steps|
  {
    if steps != [] {
      var before, e := steps[..|steps| - 1], steps[|steps| - 1];
      var s, t := After(s0, before), After(s0, steps);
      QueueIsTraced(s0, before);
      QueueStep(s, e);
      forall q | 0 <= q < |t.queue| ensures Traced(s0, steps, t.queue[q]) {
        if e.TimerFires? && e.submitted && q == |s.queue| {
          ExtractedNow(s0, steps);
        } else {
          var p := if e.RunHead? then q + 1 else q;
          assert 0 <= p < |s.queue| && t.queue[q] == s.queue[p];
          TracedEarlier(s0, steps, s.queue[p]);
        }
      }
    }
  }

  lemma TracedEarlier(s0: State, steps: seq<Step>, op: Op)
    requires Feasible(s0, steps) && steps != [] && Feasible(s0, steps[..|steps| - 1])
    requires Traced(s0, steps[..|steps| - 1], op)
    ensures Traced(s0, steps, op)
  {
    var i :| ExtractedAt(s0, steps[..|steps| - 1], op, i);
    ExtractedEarlier(s0, steps, op, i);
  }

  /** `k` is stored from the update extracted at `i`. */
  ghost predicate StoredFrom(s0: State, steps: seq<Step>, k: Key, i: nat, n: nat)
    requires Feasible(s0, steps)
  {
    && SavedFrom(s0, steps, k, i, n)
    && k in DocumentModules(After(s0, steps).document) && k in StateAt(s0, steps, i).modules
    && DocumentModules(After(s0, steps).document)[k] == StateAt(s0, steps, i).modules[k]
  }

  ghost predicate KeyTraced(s0: State, steps: seq<Step>, k: Key)
    requires Feasible(s0, steps)
  {
    var d := DocumentModules(After(s0, steps).document);
    k in d ==>
      || (Inherited(s0, k, d[k]) && UntouchedBySaves(s0, steps, k))
      || exists i, n :: StoredFrom(s0, steps, k, i, n)
  }

  lemma SavedEarlier(s0: State, steps: seq<Step>, k: Key, i: nat, n: nat)
    requires Feasible(s0, steps) && n < |steps| - 1 && i <= n
    ensures Feasible(s0, steps[..|steps| - 1])
    ensures SavedFrom(s0, steps[..|steps| - 1], k, i, n) <==> SavedFrom(s0, steps, k, i, n)
  {
    StateAtPrefix(s0, steps, i);
    StateAtPrefix(s0, steps, n);
    StepAt(s0, steps, n);
  }

  lemma SavedNow(s0: State, steps: seq<Step>, k: Key) returns (i: nat)
    requires s0.queue == [] && Feasible(s0, steps) && steps != []
    requires SavesKey(After(s0, steps[..|steps| - 1]), steps[|steps| - 1], k)
    ensures StoredFrom(s0, steps, k, i, |steps| - 1)
  {
    var before, e := steps[..|steps| - 1], steps[|steps| - 1];
    var s := After(s0, before);
    StateAtPrefix(s0, steps, |before|);
    StateAtEnd(s0, before);
    KeyStep(s, e, k);
    if e.Stop? {
      i := |before|;
    } else {
      QueueIsTraced(s0, before);
      assert Traced(s0, before, s.queue[0]);
      i :| ExtractedAt(s0, before, s.queue[0], i);
      StateAtPrefix(s0, steps, i);
    }
  }

  lemma StoredEarlier(s0: State, steps: seq<Step>, k: Key, i: nat, n: nat)
    requires Feasible(s0, steps) && steps != [] && Feasible(s0, steps[..|steps| - 1])
    requires StoredFrom(s0, steps[..|steps| - 1], k, i, n)
    requires !Touches(After(s0, steps[..|steps| - 1]), steps[|steps| - 1], k)
    ensures StoredFrom(s0, steps, k, i, n)
  {
    SavedEarlier(s0, steps, k, i, n);
    StateAtPrefix(s0, steps, i);
    KeyStep(After(s0, steps[..|steps| - 1]), steps[|steps| - 1], k);
  }

  lemma {:induction false} KeyIsTraced(s0: State, steps: seq<Step>, k: Key)
    requires s0.queue == [] && Feasible(s0, steps)
    ensures KeyTraced(s0, steps, k)
    decreases |steps|
  {
    if steps != [] {
      var before, e := steps[..|steps| - 1], steps[|steps| - 1];
      KeyIsTraced(s0, before, k);
      KeyStep(After(s0, before), e, k);
      if SavesKey(After(s0, before), e, k) {
        var i := SavedNow(s0, steps, k);
      } else if !Touches(After(s0, before), e, k) {
        if i, n :| StoredFrom(s0, before, k, i, n) {
          StoredEarlier(s0, steps, k, i, n);
        }
      }
    }
  }

  // ----- versions and ids tell when -----

  ghost predicate WrittenBetween(steps: seq<Step>, k: Key, i: nat, n: nat) {
    exists m | i <= m < n && m < |steps| :: Writes(steps[m], k)
  }

  lemma VersionNext(s0: State, steps: seq<Step>, k: Key, m: nat, n: nat)
    requires Feasible(s0, steps) && n == m + 1 <= |steps| && k in StateAt(s0, steps, m).modules
    ensures k in StateAt(s0, steps, n).modules
    ensures var c, d := StateAt(s0, steps, m).modules[k], StateAt(s0, steps, n).modules[k];
            if Writes(steps[m], k) then c.version < d.version else c == d
  {
    StepAt(s0, steps, m);
    MemoryStep(StateAt(s0, steps, m), steps[m], k);
  }

  lemma {:induction false} VersionsAlong(s0: State, steps: seq<Step>, k: Key, i: nat, n: nat)
    requires Feasible(s0, steps) && i <= n <= |steps| && k in StateAt(s0, steps, i).modules
    ensures k in StateAt(s0, steps, n).modules
    ensures var c, d := StateAt(s0, steps, i).modules[k], StateAt(s0, steps, n).modules[k];
            if WrittenBetween(steps, k, i, n) then c.version < d.version else c == d
    decreases n
  {
    if i < n {
      VersionsAlong(s0, steps, k, i, n - 1);
      VersionNext(s0, steps, k, n - 1, n);
      WrittenOneMore(steps, k, i, n);
    }
  }

  lemma WrittenOneMore(steps: seq<Step>, k: Key, i: nat, n: nat)
    requires i < n <= |steps|
    ensures WrittenBetween(steps, k, i, n) <==> WrittenBetween(steps, k, i, n - 1) || Writes(steps[n - 1], k)
  {
  }

  lemma {:induction false} IdsAlong(s0: State, steps: seq<Step>, i: nat, n: nat)
    requires Feasible(s0, steps) && i < n <= |steps| && steps[i].TimerFires? && steps[i].submitted
    ensures StateAt(s0, steps, i).nextOp < StateAt(s0, steps, n).nextOp
    decreases n
  {
    StepAt(s0, steps, n - 1);
    NextOpStep(StateAt(s0, steps, n - 1), steps[n - 1]);
    if i < n - 1 {
      IdsAlong(s0, steps, i, n - 1);
    }
  }

  /** Different extractions have different ids. */
  lemma SameExtraction(s0: State, steps: seq<Step>, i: nat, j: nat)
    requires Feasible(s0, steps) && i < |steps| && j < |steps|
    requires steps[i].TimerFires? && steps[i].submitted && steps[j].TimerFires? && steps[j].submitted
    requires StateAt(s0, steps, i).nextOp == StateAt(s0, steps, j).nextOp
    ensures i == j
  {
    if i < j {
      IdsAlong(s0, steps, i, j);
    } else if j < i {
      IdsAlong(s0, steps, j, i);
    }
  }

  lemma StateAtLonger(s0: State, steps: seq<Step>, n: nat, j: nat)
    requires Feasible(s0, steps) && j <= n <= |steps|
    ensures Feasible(s0, steps[..n]) && StateAt(s0, steps[..n], j) == StateAt(s0, steps, j)
  {
    PrefixFeasible(s0, steps, n);
    assert steps[..n][..j] == steps[..j];
  }

  lemma ExtractedLonger(s0: State, steps: seq<Step>, n: nat, op: Op, j: nat)
    requires Feasible(s0, steps) && n <= |steps| && Feasible(s0, steps[..n]) && ExtractedAt(s0, steps[..n], op, j)
    ensures ExtractedAt(s0, steps, op, j)
  {
    StateAtLonger(s0, steps, n, j);
  }

  /** What is queued at step `n` was extracted before. */
  lemma HeadTraced(s0: State, steps: seq<Step>, n: nat) returns (j: nat)
    requires s0.queue == [] && Feasible(s0, steps) && n < |steps| && StateAt(s0, steps, n).queue != []
    ensures ExtractedAt(s0, steps, StateAt(s0, steps, n).queue[0], j)
  {
    PrefixFeasible(s0, steps, n);
    QueueIsTraced(s0, steps[..n]);
    var op := StateAt(s0, steps, n).queue[0];
    assert Traced(s0, steps[..n], op);
    j :| ExtractedAt(s0, steps[..n], op, j);
    ExtractedLonger(s0, steps, n, op, j);
  }

  lemma QueuedContent(s0: State, steps: seq<Step>, k: Key, i: nat, n: nat)
    requires s0.queue == [] && Feasible(s0, steps) && SavedFrom(s0, steps, k, i, n) && !steps[n].Stop?
    ensures StateAt(s0, steps, n).queue != []
    ensures var payload := StateAt(s0, steps, n).queue[0].payload;
            && k in payload && k in StateAt(s0, steps, i).modules && payload[k] == StateAt(s0, steps, i).modules[k]
  {
    var j := HeadTraced(s0, steps, n);
    SameExtraction(s0, steps, i, j);
  }

  /** What a save stores is what memory held when it was extracted. */
  lemma SavedContent(s0: State, steps: seq<Step>, k: Key, i: nat, n: nat)
    requires s0.queue == [] && Feasible(s0, steps) && SavedFrom(s0, steps, k, i, n)
    ensures k in StateAt(s0, steps, i).modules
    ensures var d := DocumentModules(StateAt(s0, steps, n + 1).document);
            k in d && d[k] == StateAt(s0, steps, i).modules[k]
  {
    StepAt(s0, steps, n);
    KeyStep(StateAt(s0, steps, n), steps[n], k);
    if !steps[n].Stop? {
      QueuedContent(s0, steps, k, i, n);
    }
  }

  // ----- stored contents stay -----

  lemma CarriedInChain(s: State, e: Step)
    requires VersionChain(s) && Enabled(s, e) && Saves(s, e)
    ensures var op := Carried(s, e);
            Below(DocumentModules(s.document), op.payload) && Grows(op.payload, s.modules) && Covers(op, s.document)
  {
  }

  lemma SaveKeepsUpToDate(s: State, e: Step, k: Key)
    requires VersionChain(s) && Enabled(s, e) && k in s.modules && UpToDate(s, k) && !Writes(e, k)
    ensures k in Apply(s, e).modules && UpToDate(Apply(s, e), k)
  {
    KeyStep(s, e, k);
    UnwrittenStays(s, e, k);
    if Saves(s, e) {
      CarriedInChain(s, e);
    }
  }

  lemma ChainAt(s0: State, steps: seq<Step>, n: nat)
    requires VersionChain(s0) && Feasible(s0, steps) && n <= |steps|
    ensures VersionChain(StateAt(s0, steps, n))
  {
    PrefixFeasible(s0, steps, n);
    ChainAfter(s0, steps[..n]);
  }

  lemma UpToDateNext(s0: State, steps: seq<Step>, k: Key, m: nat, n: nat)
    requires VersionChain(s0) && Feasible(s0, steps) && n == m + 1 <= |steps| && !Writes(steps[m], k)
    requires k in StateAt(s0, steps, m).modules && UpToDate(StateAt(s0, steps, m), k)
    ensures k in StateAt(s0, steps, n).modules && UpToDate(StateAt(s0, steps, n), k)
  {
    StepAt(s0, steps, m);
    ChainAt(s0, steps, m);
    SaveKeepsUpToDate(StateAt(s0, steps, m), steps[m], k);
  }

  lemma {:induction false} UpToDateToTheEnd(s0: State, steps: seq<Step>, k: Key, n: nat)
    requires VersionChain(s0) && Feasible(s0, steps) && n <= |steps| && UnwrittenFrom(steps, k, n)
    requires k in StateAt(s0, steps, n).modules && UpToDate(StateAt(s0, steps, n), k)
    ensures k in After(s0, steps).modules && UpToDate(After(s0, steps), k)
    decreases |steps| - n
  {
    if n == |steps| {
      StateAtEnd(s0, steps);
    } else {
      UpToDateNext(s0, steps, k, n, n + 1);
      UpToDateToTheEnd(s0, steps, k, n + 1);
    }
  }

  lemma UpToDateWhenSaved(s0: State, steps: seq<Step>, k: Key, i: nat, n: nat)
    requires s0.queue == [] && Feasible(s0, steps)
    requires SavedFrom(s0, steps, k, i, n) && UnwrittenFrom(steps, k, i)
    ensures k in StateAt(s0, steps, n + 1).modules && UpToDate(StateAt(s0, steps, n + 1), k)
  {
    SavedContent(s0, steps, k, i, n);
    VersionsAlong(s0, steps, k, i, n + 1);
  }

  lemma SavedMeansUpToDate(s0: State, steps: seq<Step>, k: Key, i: nat, n: nat)
    requires VersionChain(s0) && s0.queue == [] && Feasible(s0, steps)
    requires SavedFrom(s0, steps, k, i, n) && UnwrittenFrom(steps, k, i)
    ensures k in After(s0, steps).modules && UpToDate(After(s0, steps), k)
  {
    UpToDateWhenSaved(s0, steps, k, i, n);
    UpToDateToTheEnd(s0, steps, k, n + 1);
  }

  lemma {:induction false} UntouchedStays(s0: State, steps: seq<Step>, k: Key, c: Cell)
    requires Feasible(s0, steps) && Inherited(s0, k, c) && UntouchedBySaves(s0, steps, k)
    ensures k in DocumentModules(After(s0, steps).document) && DocumentModules(After(s0, steps).document)[k] == c
    decreases |steps|
  {
    if steps != [] {
      var before := steps[..|steps| - 1];
      UntouchedStays(s0, before, k, c);
      KeyStep(After(s0, before), steps[|before|], k);
    }
  }

  // ----- the main result -----

  /** Some save that carried `k` was extracted after the newest write of `k` and took effect. */
  ghost predicate SavedSinceWritten(s0: State, steps: seq<Step>, k: Key)
    requires Feasible(s0, steps)
  {
    exists i, n :: SavedFrom(s0, steps, k, i, n) && UnwrittenFrom(steps, k, i)
  }

  /** The store held this very content from the start, and no save has touched it. */
  ghost predicate StoredAllAlong(s0: State, steps: seq<Step>, k: Key)
    requires Feasible(s0, steps) && k in After(s0, steps).modules
  {
    Inherited(s0, k, After(s0, steps).modules[k]) && UntouchedBySaves(s0, steps, k)
  }

  lemma SavesAlike(s: State, t: State, earlier: map<Key, Cell>, e: Step, k: Key)
    requires Alike(s, t, earlier)
    requires Enabled(s, e) && Enabled(t, e) && SavesKey(s, e, k)
    ensures SavesKey(t, e, k)
  {
    assert e.Stop? ==> Extract(s) == Extract(t);
  }

  lemma StatesAlike(s0: State, t0: State, earlier: map<Key, Cell>, steps: seq<Step>, n: nat)
    requires Alike(s0, t0, earlier)
    requires Feasible(s0, steps) && Feasible(t0, steps) && n <= |steps|
    ensures Alike(StateAt(s0, steps, n), StateAt(t0, steps, n), earlier)
  {
    PrefixFeasible(s0, steps, n);
    OverlayRun(s0, t0, earlier, steps[..n]);
  }

  lemma SameSaves(s0: State, t0: State, earlier: map<Key, Cell>, steps: seq<Step>, k: Key, i: nat, n: nat)
    requires Alike(s0, t0, earlier)
    requires Feasible(s0, steps) && Feasible(t0, steps) && SavedFrom(s0, steps, k, i, n)
    ensures SavedFrom(t0, steps, k, i, n)
  {
    StatesAlike(s0, t0, earlier, steps, n);
    StatesAlike(s0, t0, earlier, steps, i);
    StepAt(t0, steps, n);
    SavesAlike(StateAt(s0, steps, n), StateAt(t0, steps, n), earlier, steps[n], k);
  }

  /** A saved content is stored, after every start. */
  lemma SavedIsStored(document: Document, outcome: LoadOutcome, steps: seq<Step>, k: Key)
    requires Answerable(document, outcome) && Feasible(Start(document, outcome), steps)
    requires SavedSinceWritten(Start(document, outcome), steps, k)
    ensures var s := After(Start(document, outcome), steps); k in s.modules && UpToDate(s, k)
  {
    var s0 := Start(document, outcome);
    var i, n :| SavedFrom(s0, steps, k, i, n) && UnwrittenFrom(steps, k, i);
    if NothingToLose(document, outcome) {
      SavedMeansUpToDate(s0, steps, k, i, n);
    } else {
      var t0 := Baseline(document, outcome);
      BaselineStart(document, outcome);
      OverlayRun(s0, t0, DocumentModules(document), steps);
      SameSaves(s0, t0, DocumentModules(document), steps, k, i, n);
      SavedMeansUpToDate(t0, steps, k, i, n);
    }
  }

  /** What is stored from an extraction is what memory holds only if nothing was written since. */
  lemma StoredTells(s0: State, steps: seq<Step>, k: Key, i: nat, n: nat)
    requires Feasible(s0, steps) && StoredFrom(s0, steps, k, i, n) && k in After(s0, steps).modules
    ensures UpToDate(After(s0, steps), k) ==> UnwrittenFrom(steps, k, i)
  {
    VersionsAlong(s0, steps, k, i, |steps|);
    StateAtEnd(s0, steps);
    assert WrittenBetween(steps, k, i, |steps|) || UnwrittenFrom(steps, k, i);
  }

  /** After every start and in every run: the store holds what memory holds for a module exactly
      when some save that carried the module was extracted after its newest write and took effect,
      or the store held that content from the start and no save has touched it. */
  lemma StoredIff(document: Document, outcome: LoadOutcome, steps: seq<Step>, k: Key)
    requires Answerable(document, outcome) && Feasible(Start(document, outcome), steps)
    requires k in After(Start(document, outcome), steps).modules
    ensures var s0 := Start(document, outcome);
            UpToDate(After(s0, steps), k) <==> SavedSinceWritten(s0, steps, k) || StoredAllAlong(s0, steps, k)
  {
    var s0 := Start(document, outcome);
    var s := After(s0, steps);
    if SavedSinceWritten(s0, steps, k) {
      SavedIsStored(document, outcome, steps, k);
    } else if StoredAllAlong(s0, steps, k) {
      UntouchedStays(s0, steps, k, s.modules[k]);
    } else {
      KeyIsTraced(s0, steps, k);
      if i, n :| StoredFrom(s0, steps, k, i, n) {
        StoredTells(s0, steps, k, i, n);
      }
    }
  }
}
