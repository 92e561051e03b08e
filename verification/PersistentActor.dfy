/** The actor side of the save protocol in place: the model's marks, the timer slot and the
    handlers that change them. Every method is one step of the protocol. */
module PersistentActors {
  import opened PersistProtocol

  class PersistentActor {
    var modules: map<Key, Cell>
    var dirties: set<Key>
    var all: bool
    var saveTimerId: nat
    var running: bool
    // the actor's timers
    var liveTimers: set<nat>
    var nextTimer: nat
    // the storage back end as far as this actor's key is concerned
    var queue: seq<Op>
    var nextOp: nat
    var okAcks: set<nat>
    var failAcks: set<nat>
    var document: Document

    ghost function View(): State
      reads this
    {
      State(modules, dirties, all, saveTimerId, liveTimers, nextTimer,
            queue, nextOp, okAcks, failAcks, document, running)
    }

    /** A fresh model, before the actor has started. */
    constructor (document: Document)
      ensures View() == State(map[], {}, false, NO_TIMER, {}, 1, [], 0, {}, {}, document, true)
    {
      modules, dirties, all := map[], {}, false;
      saveTimerId, liveTimers, nextTimer := NO_TIMER, {}, 1;
      queue, nextOp, okAcks, failAcks := [], 0, {}, {};
      this.document := document;
      running := true;
    }

    /** Retries on network errors only; every error but "no documents" counts as existing. */
    method LoadModel(outcomes: seq<LoadOutcome>) returns (exists_: bool, outcome: LoadOutcome)
      requires |outcomes| == 4
      requires forall i | 0 <= i < |outcomes| :: outcomes[i].Loaded? ==> document.Present?
      modifies `modules
      ensures exists_ == LoadReportsExists(outcome)
      ensures exists i | 0 <= i < |outcomes| ::
                && outcome == outcomes[i]
                && (forall j | 0 <= j < i :: outcomes[j].NetworkError?)
                && (outcome.NetworkError? ==> i == |outcomes| - 1)
      ensures modules == if outcome.Loaded? then document.modules else old(modules)
    {
      var i := 0;
      outcome := NetworkError;
      while i < SAVE_ATTEMPTS
        invariant 0 <= i <= SAVE_ATTEMPTS
        invariant outcome.NetworkError? && modules == old(modules)
        invariant forall j | 0 <= j < i :: outcomes[j].NetworkError?
      {
        outcome := outcomes[i];
        if outcome.Loaded? {
          modules := document.modules;
        }
        if !outcome.NetworkError? {
          break;
        }
        i := i + 1;
      }
      if outcome.NetworkError? {
        assert outcome == outcomes[|outcomes| - 1];
      }
      exists_ := !outcome.NoDocuments?;
    }

    method OnStart(outcomes: seq<LoadOutcome>) returns (outcome: LoadOutcome)
      requires |outcomes| == 4
      requires forall i | 0 <= i < |outcomes| :: outcomes[i].Loaded? ==> document.Present?
      requires View() == State(map[], {}, false, NO_TIMER, {}, 1, [], 0, {}, {}, document, true)
      modifies this
      ensures outcome in outcomes
      ensures View() == Start(old(document), outcome)
    {
      var exists_;
      exists_, outcome := LoadModel(outcomes);
      if !exists_ {
        all := true;
        OnModelDirtyInPlace();
      }
    }

    method StartSaveTimerInPlace()
      modifies this
      ensures View() == StartSaveTimer(old(View()))
    {
      if saveTimerId != NO_TIMER {
        return;
      }
      saveTimerId := nextTimer;
      liveTimers := liveTimers + {nextTimer};
      nextTimer := nextTimer + 1;
    }

    method OnModelDirtyInPlace()
      modifies this
      ensures View() == OnModelDirty(old(View()))
    {
      if !(all || dirties != {}) {
        return;
      }
      StartSaveTimerInPlace();
    }

    method SetDirtyModule(mk: Key)
      modifies `dirties
      ensures dirties == old(dirties) + if mk in modules then {mk} else {}
    {
      if mk in modules {
        dirties := dirties + {mk};
      }
    }

    /** A handler writes some modules and marks at least those. */
    method WriteAndMark(writes: map<Key, Value>, mks: seq<Key>)
      requires Enabled(View(), Update(writes, mks))
      modifies this
      ensures View() == Apply(old(View()), Update(writes, mks))
    {
      modules := Written(modules, writes);
      if |mks| == 0 {
        return;
      }
      ghost var marked := set k | k in mks && k in modules;
      for i := 0 to |mks|
        invariant dirties == old(dirties) + (set k | k in mks[..i] && k in modules)
        invariant View() == old(View()).(modules := Written(old(modules), writes), dirties := dirties)
      {
        SetDirtyModule(mks[i]);
        assert mks[..i + 1] == mks[..i] + [mks[i]];
      }
      assert mks[..|mks|] == mks;
      assert dirties == old(dirties) + marked;
      OnModelDirtyInPlace();
    }

    method WriteAndMarkAll(writes: map<Key, Value>)
      requires Enabled(View(), UpdateAll(writes))
      modifies this
      ensures View() == Apply(old(View()), UpdateAll(writes))
    {
      modules := Written(modules, writes);
      all := true;
      OnModelDirtyInPlace();
    }

    /** `submitted` tells whether the back end took the operation. */
    method OnSaveTimerFired(tid: nat, submitted: bool)
      requires Enabled(View(), TimerFires(tid, submitted))
      modifies this
      ensures View() == Apply(old(View()), TimerFires(tid, submitted))
    {
      liveTimers := liveTimers - {tid};
      if saveTimerId == tid {
        saveTimerId := NO_TIMER;
      }
      var update, upsert := ExtractModelDirty();
      if submitted {
        queue := queue + [Op(nextOp, update, upsert)];
        nextOp := nextOp + 1;
      } else {
        StartSaveTimerInPlace();
      }
    }

    method ExtractModelDirty() returns (update: map<Key, Cell>, upsert: bool)
      ensures Op(nextOp, update, upsert) == Extract(View())
      ensures upsert == all && forall k :: k in update <==> k in modules && (all || k in dirties)
    {
      ghost var marked := map k | k in dirties && k in modules :: modules[k];
      update, upsert := map[], false;
      if all || dirties != {} {
        if all {
          update, upsert := modules, true;
        } else {
          update := map k | k in dirties && k in modules :: modules[k];
        }
      }
      assert dirties == {} ==> marked.Keys == {};
    }

    method ClearDirtyInPlace()
      modifies `dirties, `all
      ensures dirties == {} && !all
    {
      dirties, all := {}, false;
    }

    method HandleActorSaveResult(id: nat, success: bool)
      requires Enabled(View(), if success then AckOk(id) else AckFailed(id))
      modifies this
      ensures View() == Apply(old(View()), if success then AckOk(id) else AckFailed(id))
    {
      if success {
        okAcks := okAcks - {id};
        ClearDirtyInPlace();
      } else {
        failAcks := failAcks - {id};
        StartSaveTimerInPlace();
      }
    }

    /** The back end executes the oldest operation of this key. */
    method ExecuteNext(outcome: Outcome)
      requires Enabled(View(), RunHead(outcome))
      modifies this
      ensures View() == Apply(old(View()), RunHead(outcome))
    {
      var op := queue[0];
      queue := queue[1..];
      if !outcome.Rejected? {
        document := ApplyOp(document, op);
      }
      if outcome.Stored? {
        okAcks := okAcks + {op.id};
      } else {
        failAcks := failAcks + {op.id};
      }
    }

    /** Saves with retries; the marks are removed only when an attempt reported success. */
    method SaveModel(attempts: seq<Outcome>) returns (saved: bool)
      requires |attempts| == 4
      modifies this
      ensures (document, saved) == Attempt(old(document), Extract(old(View())), attempts)
      ensures saved <==> exists i | 0 <= i < |attempts| :: attempts[i].Stored?
      ensures View() == (if saved then ClearDirty(old(View())) else old(View())).(document := document)
    {
      var update, upsert := ExtractModelDirty();
      var op := Op(nextOp, update, upsert);
      saved := false;
      var i := 0;
      while i < SAVE_ATTEMPTS && !saved
        invariant 0 <= i <= SAVE_ATTEMPTS
        invariant View() == old(View()).(document := document)
        invariant if saved then i > 0 && attempts[i - 1].Stored? else forall j | 0 <= j < i :: !attempts[j].Stored?
        invariant Attempt(old(document), op, attempts)
                  == if saved then (document, true) else Attempt(document, op, attempts[i..])
      {
        if !attempts[i].Rejected? {
          document := ApplyOp(document, op);
        }
        saved := attempts[i].Stored?;
        i := i + 1;
      }
      if saved {
        ClearDirtyInPlace();
      }
    }

    method OnStop(attempts: seq<Outcome>) returns (stopped: bool)
      requires Enabled(View(), Stop(attempts))
      modifies this
      ensures View() == Apply(old(View()), Stop(attempts))
      ensures stopped == !running
      ensures stopped <==> !IsDirty(old(View())) || exists i | 0 <= i < |attempts| :: attempts[i].Stored?
    {
      if all || dirties != {} {
        var saved := SaveModel(attempts);
        if !saved {
          return false;
        }
      }
      running := false;
      return true;
    }
  }
}
