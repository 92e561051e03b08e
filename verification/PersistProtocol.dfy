/** The save protocol of an actor's model: dirty marks, the one-shot save timer, the
    per-key operation queue of the storage back end, and the save-result notifications.

    Every step of the actor or of its surroundings is one function on `State`. What the
    surroundings decide (does an operation succeed, which notification arrives next) is a
    parameter of the step, so a run is a sequence of steps. */
module PersistProtocol {

  type Key = string
  type Value = string

  /** The content of one module; `version` counts the writes made to it. */
  datatype Cell = Cell(version: nat, value: Value)

  datatype Document = Absent | Present(modules: map<Key, Cell>)

  /** A queued update: the module contents read at extraction time. */
  datatype Op = Op(id: nat, payload: map<Key, Cell>, upsert: bool)

  /** What one execution of an update does. A write may reach the store although the
      caller is told that it failed. */
  datatype Outcome = Stored | Rejected | StoredButReportedFailed

  datatype LoadOutcome = Loaded | NoDocuments | NetworkError | OtherError

  const NO_TIMER: nat := 0
  const MAX_RETRIES: nat := 3
  const SAVE_ATTEMPTS: nat := 1 + MAX_RETRIES

  datatype State = State(
    modules: map<Key, Cell>,
    dirties: set<Key>,
    all: bool,
    saveTimer: nat,
    liveTimers: set<nat>,
    nextTimer: nat,
    queue: seq<Op>,
    nextOp: nat,
    okAcks: set<nat>,
    failAcks: set<nat>,
    document: Document,
    running: bool)

  datatype Step =
    | Update(writes: map<Key, Value>, keys: seq<Key>)
    | UpdateAll(writesAll: map<Key, Value>)
    | TimerFires(timer: nat, submitted: bool)
    | RunHead(outcome: Outcome)
    | AckOk(id: nat)
    | AckFailed(failedId: nat)
    | Stop(attempts: seq<Outcome>)

  // ----- dirty marks -----

  predicate IsDirty(s: State) {
    s.all || s.dirties != {}
  }

  function DirtyKeys(s: State): set<Key> {
    if s.all then s.modules.Keys else s.dirties
  }

  function Written(modules: map<Key, Cell>, writes: map<Key, Value>): map<Key, Cell> {
    modules + map k | k in writes :: Cell(if k in modules then modules[k].version + 1 else 0, writes[k])
  }

  /** Marks the named modules that exist; an unknown module name is ignored. */
  function MarkEach(s: State, keys: seq<Key>): State {
    s.(dirties := s.dirties + set k | k in keys && k in s.modules)
  }

  // ----- the save timer -----

  function StartSaveTimer(s: State): State {
    if s.saveTimer != NO_TIMER then s
    else s.(saveTimer := s.nextTimer, liveTimers := s.liveTimers + {s.nextTimer}, nextTimer := s.nextTimer + 1)
  }

  function OnModelDirty(s: State): State {
    if IsDirty(s) then StartSaveTimer(s) else s
  }

  function SetDirtyModules(s: State, keys: seq<Key>): State {
    if keys == [] then s else OnModelDirty(MarkEach(s, keys))
  }

  function SetAllDirty(s: State): State {
    OnModelDirty(s.(all := true))
  }

  // ----- extraction and saving -----

  /** The update a save would send now. A save of a clean model sends an empty one. */
  function Extract(s: State): Op {
    if s.all then Op(s.nextOp, s.modules, true)
    else Op(s.nextOp, map k | k in s.dirties && k in s.modules :: s.modules[k], false)
  }

  /** The store after an update took effect. A full update sets the field that holds all modules,
      a partial one sets single modules in it and leaves a missing document missing. */
  function ApplyOp(document: Document, op: Op): Document {
    if op.upsert then Present(op.payload)
    else match document
      case Absent => Absent
      case Present(modules) => Present(modules + op.payload)
  }

  function ClearDirty(s: State): State {
    s.(dirties := {}, all := false)
  }

  function OnSaveTimer(s: State, timer: nat, submitted: bool): State {
    var fired := s.(liveTimers := s.liveTimers - {timer},
                    saveTimer := if s.saveTimer == timer then NO_TIMER else s.saveTimer);
    if submitted then fired.(queue := fired.queue + [Extract(fired)], nextOp := fired.nextOp + 1)
    else StartSaveTimer(fired)
  }

  function RunQueued(s: State, outcome: Outcome): State
    requires s.queue != []
  {
    var op := s.queue[0];
    var ran := s.(queue := s.queue[1..],
                  document := if outcome.Rejected? then s.document else ApplyOp(s.document, op));
    if outcome.Stored? then ran.(okAcks := ran.okAcks + {op.id}) else ran.(failAcks := ran.failAcks + {op.id})
  }

  /** Repeats one update until an attempt reports success or the attempts run out. */
  function Attempt(document: Document, op: Op, attempts: seq<Outcome>): (Document, bool)
    decreases attempts
  {
    if attempts == [] then (document, false)
    else match attempts[0]
      case Stored => (ApplyOp(document, op), true)
      case Rejected => Attempt(document, op, attempts[1..])
      case StoredButReportedFailed => Attempt(ApplyOp(document, op), op, attempts[1..])
  }

  function SaveAndStop(s: State, attempts: seq<Outcome>): State {
    if !IsDirty(s) then s.(running := false)
    else
      var (document, saved) := Attempt(s.document, Extract(s), attempts);
      if saved then ClearDirty(s).(document := document, running := false)
      else s.(document := document)
  }

  // ----- starting -----

  /** What the start reports about the document. Every failure other than "no documents"
      is reported as if the document existed. */
  predicate LoadReportsExists(outcome: LoadOutcome) {
    !outcome.NoDocuments?
  }

  function Start(document: Document, outcome: LoadOutcome): State {
    var loaded := State(if outcome.Loaded? && document.Present? then document.modules else map[],
                        {}, false, NO_TIMER, {}, 1, [], 0, {}, {}, document, true);
    if LoadReportsExists(outcome) then loaded else SetAllDirty(loaded)
  }

  /** The store answers truthfully when it answers at all. */
  predicate Answerable(document: Document, outcome: LoadOutcome) {
    (outcome.Loaded? ==> document.Present?) && (outcome.NoDocuments? ==> document.Absent?)
  }

  /** The load failed for another reason than a missing document; the actor starts nevertheless. */
  predicate LoadFailed(outcome: LoadOutcome) {
    outcome.NetworkError? || outcome.OtherError?
  }

  /** The load got an answer. */
  predicate Truthful(document: Document, outcome: LoadOutcome) {
    Answerable(document, outcome) && !LoadFailed(outcome)
  }

  // ----- runs -----

  /** A handler marks what it writes before it returns; a synchronous save waits behind the
      operations queued for the same key. */
  predicate Enabled(s: State, e: Step) {
    match e
    case Update(writes, keys) => s.running && forall k | k in writes :: k in keys
    case UpdateAll(_) => s.running
    case TimerFires(timer, _) => s.running && timer in s.liveTimers
    case RunHead(_) => s.queue != []
    case AckOk(id) => s.running && id in s.okAcks
    case AckFailed(id) => s.running && id in s.failAcks
    case Stop(attempts) => s.running && (IsDirty(s) ==> s.queue == [] && |attempts| == SAVE_ATTEMPTS)
  }

  function Apply(s: State, e: Step): State
    requires Enabled(s, e)
  {
    match e
    case Update(writes, keys) => SetDirtyModules(s.(modules := Written(s.modules, writes)), keys)
    case UpdateAll(writes) => SetAllDirty(s.(modules := Written(s.modules, writes)))
    case TimerFires(timer, submitted) => OnSaveTimer(s, timer, submitted)
    case RunHead(outcome) => RunQueued(s, outcome)
    case AckOk(id) => ClearDirty(s.(okAcks := s.okAcks - {id}))
    case AckFailed(id) => StartSaveTimer(s.(failAcks := s.failAcks - {id}))
    case Stop(attempts) => SaveAndStop(s, attempts)
  }

  ghost predicate Feasible(s0: State, steps: seq<Step>)
    decreases |steps|, 0
  {
    steps == [] ||
    (var before := steps[..|steps| - 1];
     Feasible(s0, before) && Enabled(After(s0, before), steps[|steps| - 1]))
  }

  ghost function After(s0: State, steps: seq<Step>): State
    requires Feasible(s0, steps)
    decreases |steps|, 1
  {
    if steps == [] then s0
    else
      var before := steps[..|steps| - 1];
      Apply(After(s0, before), steps[|steps| - 1])
  }

  /** The keys a step marks dirty. */
  function Marks(s: State, e: Step): set<Key> {
    match e
    case Update(writes, keys) => set k | k in keys && k in Written(s.modules, writes)
    case UpdateAll(writes) => Written(s.modules, writes).Keys
    case _ => {}
  }
}
