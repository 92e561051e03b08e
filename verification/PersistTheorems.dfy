/** An observer of the runs of the save protocol, the invariant it makes provable, and what its
    notes mean in terms of the run alone. */
module PersistTheorems {
  import opened PersistProtocol
  import opened PersistInvariants

  // ----- an observer of the run -----

  /** For every save, the keys marked since its extraction; and the keys whose newest mark a
      success notification removed although that save had been extracted before the mark. */
  datatype Watch = Watch(since: map<nat, set<Key>>, lost: set<Key>)

  function Observe(s: State, w: Watch, e: Step): Watch {
    var marked := Marks(s, e);
    match e
    case TimerFires(_, submitted) => if submitted then w.(since := w.since[s.nextOp := {}]) else w
    case AckOk(id) => w.(lost := w.lost + if id in w.since then DirtyKeys(s) * w.since[id] else {})
    case _ => Watch(map o | o in w.since :: w.since[o] + marked, w.lost - marked)
  }

  ghost function WatchAfter(s0: State, steps: seq<Step>): Watch
    requires Feasible(s0, steps)
    decreases |steps|
  {
    if steps == [] then Watch(map[], {})
    else
      var before := steps[..|steps| - 1];
      Observe(After(s0, before), WatchAfter(s0, before), steps[|steps| - 1])
  }

  /** The store holds what memory holds for this key. */
  predicate UpToDate(s: State, k: Key)
    requires k in s.modules
  {
    k in DocumentModules(s.document) && DocumentModules(s.document)[k] == s.modules[k]
  }

  ghost predicate Accounted(s: State, w: Watch) {
    && (forall i | 0 <= i < |s.queue| :: s.queue[i].id in w.since)
    && (forall id | id in s.okAcks :: id in w.since)
    && (forall o | o in w.since :: o < s.nextOp)
    && (forall i, k | 0 <= i < |s.queue| && k in DirtyKeys(s) && k !in w.since[s.queue[i].id] ::
          k in s.queue[i].payload && k in s.modules && s.queue[i].payload[k] == s.modules[k])
    && (forall id, k | id in s.okAcks && k in DirtyKeys(s) && k !in w.since[id] ::
          k in s.modules && UpToDate(s, k))
    && (forall k | k in s.modules :: k in DirtyKeys(s) || k in w.lost || UpToDate(s, k))
  }

  ghost predicate Inv(s: State, w: Watch) {
    OneTimer(s) && Progress(s) && AbsentIsAllDirty(s) && FreshIds(s) && VersionChain(s) && Accounted(s, w)
  }

  // ----- one step keeps the account -----

  /** What marking does: some keys become dirty and may have a new content, nothing else moves. */
  ghost predicate MarkedInto(s: State, marked: set<Key>, t: State) {
    && DirtyKeys(s) <= DirtyKeys(t)
    && marked <= DirtyKeys(t) <= DirtyKeys(s) + marked
    && t.queue == s.queue && t.okAcks == s.okAcks && t.document == s.document && t.nextOp == s.nextOp
    && (forall k | k in t.modules && k !in marked :: k in s.modules && t.modules[k] == s.modules[k])
    && (forall k | k in s.modules :: k in t.modules)
  }

  lemma MarkedAfter(s: State, e: Step)
    requires Enabled(s, e) && (e.Update? || e.UpdateAll?) && s.dirties <= s.modules.Keys
    ensures MarkedInto(s, Marks(s, e), Apply(s, e))
  {
  }

  lemma MarkedIntoAccounted(s: State, w: Watch, marked: set<Key>, t: State)
    requires Accounted(s, w) && MarkedInto(s, marked, t)
    ensures Accounted(t, Watch(map o | o in w.since :: w.since[o] + marked, w.lost - marked))
  {
  }

  lemma MarkAccounted(s: State, w: Watch, e: Step)
    requires s.dirties <= s.modules.Keys && Accounted(s, w) && Enabled(s, e) && (e.Update? || e.UpdateAll?)
    ensures Accounted(Apply(s, e), Observe(s, w, e))
  {
    MarkedAfter(s, e);
    MarkedIntoAccounted(s, w, Marks(s, e), Apply(s, e));
  }

  lemma ExtractAccounted(s: State, w: Watch, e: Step)
    requires s.dirties <= s.modules.Keys && Accounted(s, w) && Enabled(s, e) && e.TimerFires?
    ensures Accounted(Apply(s, e), Observe(s, w, e))
  {
  }

  /** Running the head leaves every current copy current: the head's cell is not later than
      memory's and not earlier than the store's. */
  lemma RunKeepsUpToDate(s: State, outcome: Outcome, k: Key)
    requires VersionChain(s) && s.queue != [] && k in s.modules && UpToDate(s, k)
    ensures UpToDate(RunQueued(s, outcome), k)
  {
    var head := s.queue[0];
    assert Grows(head.payload, s.modules) && Below(DocumentModules(s.document), head.payload);
  }

  /** A save that succeeds stores what memory still holds for the keys not marked since. */
  lemma RunStoresUnmarked(s: State, w: Watch, k: Key)
    requires AbsentIsAllDirty(s) && Accounted(s, w) && s.queue != []
    requires k in DirtyKeys(s) && k !in w.since[s.queue[0].id]
    ensures k in s.modules && UpToDate(RunQueued(s, Stored), k)
  {
    assert s.document.Absent? ==> s.queue[0].upsert;
  }

  lemma RunAccounted(s: State, w: Watch, e: Step)
    requires VersionChain(s) && AbsentIsAllDirty(s) && Accounted(s, w) && Enabled(s, e) && e.RunHead?
    ensures Accounted(Apply(s, e), Observe(s, w, e))
  {
    var t, v := Apply(s, e), Observe(s, w, e);
    SinceUnchanged(w);
    assert v == w;
    forall k | k in s.modules && UpToDate(s, k) ensures UpToDate(t, k) {
      RunKeepsUpToDate(s, e.outcome, k);
    }
    assert forall i | 0 <= i < |t.queue| :: t.queue[i] == s.queue[i + 1];
    forall k | e.outcome.Stored? && k in DirtyKeys(s) && k !in w.since[s.queue[0].id]
      ensures k in s.modules && UpToDate(t, k)
    {
      RunStoresUnmarked(s, w, k);
    }
  }

  lemma AckOkAccounted(s: State, w: Watch, id: nat)
    requires Accounted(s, w) && Enabled(s, AckOk(id))
    ensures Accounted(Apply(s, AckOk(id)), Observe(s, w, AckOk(id)))
  {
    var t := Apply(s, AckOk(id));
    assert DirtyKeys(t) == {};
    forall k | k in s.modules && k in DirtyKeys(s) && k !in w.since[id] ensures UpToDate(t, k) {
      assert UpToDate(s, k);
    }
  }

  lemma AckFailedAccounted(s: State, w: Watch, id: nat)
    requires Accounted(s, w) && Enabled(s, AckFailed(id))
    ensures Accounted(Apply(s, AckFailed(id)), Observe(s, w, AckFailed(id)))
  {
    SinceUnchanged(w);
  }

  lemma SinceUnchanged(w: Watch)
    ensures Watch(map o | o in w.since :: w.since[o] + {}, w.lost - {}) == w
  {
    var v := Watch(map o | o in w.since :: w.since[o] + {}, w.lost - {});
    assert forall o | o in w.since :: v.since[o] == w.since[o] + {} == w.since[o];
    assert v.since == w.since && v.lost == w.lost;
  }

  /** The attempts of a stop leave every current copy current, and a saved stop makes all of the
      marked ones current. */
  lemma StopKeepsUpToDate(s: State, attempts: seq<Outcome>, k: Key)
    requires VersionChain(s) && AbsentIsAllDirty(s) && IsDirty(s) && k in s.modules
    ensures UpToDate(s, k) ==> UpToDate(SaveAndStop(s, attempts), k)
    ensures Attempt(s.document, Extract(s), attempts).1 && k in DirtyKeys(s) ==> UpToDate(SaveAndStop(s, attempts), k)
  {
    var t, op := SaveAndStop(s, attempts), Extract(s);
    AttemptStaysInChain(s.document, op, attempts, s.modules);
    AttemptKeepsUpsert(s.document, op, attempts);
    if UpToDate(s, k) {
      assert NotAfter(s.modules[k], DocumentModules(t.document)[k]);
      assert NotAfter(DocumentModules(t.document)[k], s.modules[k]);
    }
  }

  lemma StopAccounted(s: State, w: Watch, e: Step)
    requires VersionChain(s) && AbsentIsAllDirty(s) && Accounted(s, w) && Enabled(s, e) && e.Stop?
    ensures Accounted(Apply(s, e), Observe(s, w, e))
  {
    SinceUnchanged(w);
    if IsDirty(s) {
      forall k | k in s.modules
        ensures UpToDate(s, k) ==> UpToDate(SaveAndStop(s, e.attempts), k)
        ensures Attempt(s.document, Extract(s), e.attempts).1 && k in DirtyKeys(s) ==>
                  UpToDate(SaveAndStop(s, e.attempts), k)
      {
        StopKeepsUpToDate(s, e.attempts, k);
      }
    }
  }

  lemma InvStep(s: State, w: Watch, e: Step)
    requires Inv(s, w) && Enabled(s, e)
    ensures Inv(Apply(s, e), Observe(s, w, e))
  {
    TimerStep(s, e);
    AbsentStep(s, e);
    IdsStep(s, e);
    ChainStep(s, e);
    match e
    case Update(_, _) => MarkAccounted(s, w, e);
    case UpdateAll(_) => MarkAccounted(s, w, e);
    case TimerFires(_, _) => ExtractAccounted(s, w, e);
    case RunHead(_) => RunAccounted(s, w, e);
    case AckOk(id) => AckOkAccounted(s, w, id);
    case AckFailed(id) => AckFailedAccounted(s, w, id);
    case Stop(_) => StopAccounted(s, w, e);
  }

  lemma {:induction false} InvAfter(document: Document, outcome: LoadOutcome, steps: seq<Step>)
    requires Truthful(document, outcome) && Feasible(Start(document, outcome), steps)
    ensures var s0 := Start(document, outcome); Inv(After(s0, steps), WatchAfter(s0, steps))
    decreases |steps|
  {
    var s0 := Start(document, outcome);
    if steps != [] {
      var before := steps[..|steps| - 1];
      InvAfter(document, outcome, before);
      InvStep(After(s0, before), WatchAfter(s0, before), steps[|steps| - 1]);
    }
  }

  // ----- what "lost" means in terms of the run alone -----

  /** Step `i` extracts and queues save `o`. */
  ghost predicate ExtractsAt(s0: State, steps: seq<Step>, i: int, o: nat)
    requires Feasible(s0, steps)
  {
    && 0 <= i < |steps| && steps[i].TimerFires? && steps[i].submitted
    && Feasible(s0, steps[..i]) && After(s0, steps[..i]).nextOp == o
  }

  ghost predicate MarksAt(s0: State, steps: seq<Step>, j: int, k: Key)
    requires Feasible(s0, steps)
  {
    0 <= j < |steps| && Feasible(s0, steps[..j]) && k in Marks(After(s0, steps[..j]), steps[j])
  }

  predicate AcksAt(steps: seq<Step>, l: int, o: nat) {
    0 <= l < |steps| && steps[l] == AckOk(o)
  }

  /** `k` was marked at `j`, between the extraction of save `o` at `i` and the success
      notification of that save at `l`, and not marked again afterwards. */
  ghost predicate MarkedInWindow(s0: State, steps: seq<Step>, k: Key, i: int, j: int, l: int, o: nat)
    requires Feasible(s0, steps)
  {
    && i < j < l
    && ExtractsAt(s0, steps, i, o) && MarksAt(s0, steps, j, k) && AcksAt(steps, l, o)
    && forall m | l <= m < |steps| :: !MarksAt(s0, steps, m, k)
  }

  /** Appending a step leaves every earlier fact of the run as it was. */
  lemma PrefixMark(s0: State, steps: seq<Step>, j: int, k: Key)
    requires Feasible(s0, steps) && 0 <= j < |steps| - 1
    ensures Feasible(s0, steps[..|steps| - 1])
    ensures MarksAt(s0, steps, j, k) <==> MarksAt(s0, steps[..|steps| - 1], j, k)
  {
    assert steps[..|steps| - 1][..j] == steps[..j];
  }

  lemma PrefixExtract(s0: State, steps: seq<Step>, i: int, o: nat)
    requires Feasible(s0, steps) && 0 <= i < |steps| - 1
    ensures Feasible(s0, steps[..|steps| - 1])
    ensures ExtractsAt(s0, steps, i, o) <==> ExtractsAt(s0, steps[..|steps| - 1], i, o)
  {
    assert steps[..|steps| - 1][..i] == steps[..i];
  }

  lemma ObservedSince(s: State, w: Watch, e: Step, v: Watch, o: nat, k: Key)
    requires v == Observe(s, w, e) && o in v.since
    ensures o in w.since || (e.TimerFires? && e.submitted && o == s.nextOp)
    ensures k in v.since[o] ==> o in w.since && (k in w.since[o] || k in Marks(s, e))
  {
  }

  lemma ObservedLost(s: State, w: Watch, e: Step, k: Key)
    requires k in Observe(s, w, e).lost
    ensures k !in Marks(s, e)
    ensures k in w.lost || (e.AckOk? && e.id in w.since && k in w.since[e.id])
  {
  }

  lemma ExtractLast(s0: State, steps: seq<Step>, o: nat)
    requires Feasible(s0, steps) && steps != [] && o in WatchAfter(s0, steps).since
    requires o !in WatchAfter(s0, steps[..|steps| - 1]).since
    ensures ExtractsAt(s0, steps, |steps| - 1, o)
  {
    ObservedSince(After(s0, steps[..|steps| - 1]), WatchAfter(s0, steps[..|steps| - 1]), steps[|steps| - 1],
                  WatchAfter(s0, steps), o, "");
  }

  lemma {:induction false} SinceHasExtraction(s0: State, steps: seq<Step>, o: nat) returns (i: int)
    requires Feasible(s0, steps) && o in WatchAfter(s0, steps).since
    ensures ExtractsAt(s0, steps, i, o)
    decreases |steps|
  {
    assert steps != [];
    if o in WatchAfter(s0, steps[..|steps| - 1]).since {
      i := SinceHasExtraction(s0, steps[..|steps| - 1], o);
      PrefixExtract(s0, steps, i, o);
    } else {
      i := |steps| - 1;
      ExtractLast(s0, steps, o);
    }
  }

  lemma MarkedLast(s0: State, steps: seq<Step>, k: Key)
    requires Feasible(s0, steps) && steps != [] && k in Marks(After(s0, steps[..|steps| - 1]), steps[|steps| - 1])
    ensures MarksAt(s0, steps, |steps| - 1, k)
  {
  }

  lemma SinceLast(s0: State, steps: seq<Step>, o: nat, k: Key)
    requires Feasible(s0, steps) && steps != []
    requires o in WatchAfter(s0, steps).since && k in WatchAfter(s0, steps).since[o]
    ensures Feasible(s0, steps[..|steps| - 1])
    ensures o in WatchAfter(s0, steps[..|steps| - 1]).since
    ensures k in WatchAfter(s0, steps[..|steps| - 1]).since[o]
            || k in Marks(After(s0, steps[..|steps| - 1]), steps[|steps| - 1])
  {
    ObservedSince(After(s0, steps[..|steps| - 1]), WatchAfter(s0, steps[..|steps| - 1]), steps[|steps| - 1],
                  WatchAfter(s0, steps), o, k);
  }

  /** `k` was marked after the extraction of save `o`. */
  ghost predicate MarkedSince(s0: State, steps: seq<Step>, o: nat, k: Key, i: int, j: int)
    requires Feasible(s0, steps)
  {
    i < j && ExtractsAt(s0, steps, i, o) && MarksAt(s0, steps, j, k)
  }

  lemma MarkedSinceEarlier(s0: State, steps: seq<Step>, o: nat, k: Key, i: int, j: int)
    requires Feasible(s0, steps) && steps != [] && Feasible(s0, steps[..|steps| - 1])
    requires MarkedSince(s0, steps[..|steps| - 1], o, k, i, j)
    ensures MarkedSince(s0, steps, o, k, i, j)
  {
    PrefixExtract(s0, steps, i, o);
    PrefixMark(s0, steps, j, k);
  }

  lemma MarkedSinceLast(s0: State, steps: seq<Step>, o: nat, k: Key) returns (i: int)
    requires Feasible(s0, steps) && steps != [] && o in WatchAfter(s0, steps[..|steps| - 1]).since
    requires k in Marks(After(s0, steps[..|steps| - 1]), steps[|steps| - 1])
    ensures MarkedSince(s0, steps, o, k, i, |steps| - 1)
  {
    i := SinceHasExtraction(s0, steps[..|steps| - 1], o);
    PrefixExtract(s0, steps, i, o);
    MarkedLast(s0, steps, k);
  }

  lemma {:induction false} SinceHasWitness(s0: State, steps: seq<Step>, o: nat, k: Key) returns (i: int, j: int)
    requires Feasible(s0, steps)
    requires o in WatchAfter(s0, steps).since && k in WatchAfter(s0, steps).since[o]
    ensures MarkedSince(s0, steps, o, k, i, j)
    decreases |steps|
  {
    assert steps != [];
    SinceLast(s0, steps, o, k);
    if k in Marks(After(s0, steps[..|steps| - 1]), steps[|steps| - 1]) {
      i := MarkedSinceLast(s0, steps, o, k);
      j := |steps| - 1;
    } else {
      i, j := SinceHasWitness(s0, steps[..|steps| - 1], o, k);
      MarkedSinceEarlier(s0, steps, o, k, i, j);
    }
  }

  lemma NotMarkedSince(s0: State, steps: seq<Step>, k: Key, l: int)
    requires Feasible(s0, steps) && 0 <= l < |steps|
    requires k !in Marks(After(s0, steps[..|steps| - 1]), steps[|steps| - 1])
    requires var before := steps[..|steps| - 1]; forall m | l <= m < |before| :: !MarksAt(s0, before, m, k)
    ensures forall m | l <= m < |steps| :: !MarksAt(s0, steps, m, k)
  {
    forall m | l <= m < |steps| ensures !MarksAt(s0, steps, m, k) {
      if m < |steps| - 1 {
        PrefixMark(s0, steps, m, k);
      }
    }
  }

  lemma {:induction false} LostHasWitness(s0: State, steps: seq<Step>, k: Key) returns (i: int, j: int, l: int, o: nat)
    requires Feasible(s0, steps) && k in WatchAfter(s0, steps).lost
    ensures MarkedInWindow(s0, steps, k, i, j, l, o)
    decreases |steps|
  {
    var before := steps[..|steps| - 1];
    var w := WatchAfter(s0, before);
    ObservedLost(After(s0, before), w, steps[|before|], k);
    if k in w.lost {
      i, j, l, o := LostHasWitness(s0, before, k);
    } else {
      o, l := steps[|before|].id, |before|;
      assert before != [];
      i, j := SinceHasWitness(s0, before, o, k);
    }
    PrefixExtract(s0, steps, i, o);
    PrefixMark(s0, steps, j, k);
    NotMarkedSince(s0, steps, k, l);
  }
}
