/** One agent's two loops, its bounded packet queue and its stop procedure, at the grain of
    single reads and writes: any number of parties may call stop while the loops run. */
module AgentShutdown {

  const MAX_PENDING: nat := 10
  const UNKNOWN: nat := 0

  datatype Packet = Packet(payload: string, hooked: bool)

  datatype Party = Reader | Writer | Other(n: nat)

  /** Inside the stop procedure: before the flag, before closing the signal, before storing the
      reason, before unregistering. */
  datatype Stage = AtFlag(reason: nat) | AtClose(reason: nat) | AtReason(reason: nat) | AtCleanUp

  /** `RPacket`: a packet was read and is being handled. */
  datatype ReaderPc = RSelect | RRead | RPacket | RStopping(exit: bool) | RDone

  /** `WFinish`: before the reason is looked at; `WClosing`: before the connection is closed. */
  datatype WriterPc =
    | WSelect
    | WHandle
    | WStopping(exit: bool, notify: bool)
    | WFinish(notify: bool)
    | WClosing
    | WDone

  datatype State = State(
    flag: bool,
    closes: nat,
    reason: nat,
    connClosed: bool,
    pushed: nat,
    stops: map<Party, Stage>,
    reader: ReaderPc,
    writer: WriterPc,
    accepted: seq<Packet>,
    taken: nat,
    handled: nat,
    written: seq<Packet>,
    upstream: nat,
    callers: nat)

  datatype ReadResult = Forwarded | Rejected(packetReason: nat) | HookStops(hookReason: nat)

  datatype WriteResult =
    | Finished
    | WriteFailed(writeReason: nat)
    | HookFailed(decodeReason: nat)
    | WriteHookStops(respReason: nat)

  datatype Step =
    | ReaderSelect
    | ReaderRead(got: bool, readReason: nat)
    | ReaderPacket(readResult: ReadResult)
    | WriterTake
    | WriterPacket(writeResult: WriteResult)
    | WriterSeesStop
    | WriterNotify
    | WriterClose
    | CallStop(n: nat, reason: nat)
    | RaiseFlag(party: Party)
    | CloseSignal(party: Party)
    | StoreReason(party: Party)
    | CleanUp(party: Party)
    | Receive(packet: Packet)
    | ReceiveStopped

  /** `upstream` packets will arrive, and others will call stop `callers` times, early or late. */
  function Initial(upstream: nat, callers: nat): State {
    State(false, 0, UNKNOWN, false, UNKNOWN, map[], RSelect, WSelect, [], 0, 0, [], upstream, callers)
  }

  predicate Enabled(s: State, e: Step) {
    match e
    case ReaderSelect => s.reader.RSelect?
    case ReaderRead(got, _) => s.reader.RRead? && (s.connClosed ==> !got)
    case ReaderPacket(_) => s.reader.RPacket?
    case WriterTake => s.writer.WSelect? && s.taken < |s.accepted|
    case WriterPacket(result) =>
      && s.writer.WHandle? && 0 < s.taken <= |s.accepted|
      && (if s.accepted[s.taken - 1].hooked then !result.WriteFailed?
          else !result.HookFailed? && !result.WriteHookStops?)
    case WriterSeesStop => s.writer.WSelect? && s.closes > 0
    case WriterNotify => s.writer.WFinish?
    case WriterClose => s.writer.WClosing?
    case CallStop(n, _) => s.callers > 0 && Other(n) !in s.stops
    case RaiseFlag(party) => party in s.stops && s.stops[party].AtFlag?
    case CloseSignal(party) => party in s.stops && s.stops[party].AtClose?
    case StoreReason(party) => party in s.stops && s.stops[party].AtReason?
    case CleanUp(party) => party in s.stops && s.stops[party].AtCleanUp?
    case Receive(_) => s.upstream > 0 && |s.accepted| < s.taken + MAX_PENDING
    case ReceiveStopped => s.upstream > 0 && s.closes > 0
  }

  function EnterStop(s: State, party: Party, reason: nat): State {
    s.(stops := s.stops[party := AtFlag(reason)])
  }

  /** The stop procedure returns to whoever called it. */
  function LeaveStop(s: State, party: Party): State {
    var left := s.(stops := s.stops - {party});
    match party
    case Reader => if s.reader.RStopping? then left.(reader := if s.reader.exit then RDone else RSelect) else left
    case Writer =>
      if s.writer.WStopping? then left.(writer := if s.writer.exit then WFinish(s.writer.notify) else WSelect) else left
    case Other(_) => left
  }

  function Apply(s: State, e: Step): State
    requires Enabled(s, e)
  {
    match e
    case ReaderSelect => s.(reader := if s.closes > 0 then RDone else RRead)
    case ReaderRead(got, reason) =>
      if got then s.(reader := RPacket) else EnterStop(s, Reader, reason).(reader := RStopping(true))
    case ReaderPacket(result) =>
      (match result
       case Forwarded => s.(reader := RSelect)
       case Rejected(reason) => EnterStop(s, Reader, reason).(reader := RStopping(true))
       case HookStops(reason) => EnterStop(s, Reader, reason).(reader := RStopping(false)))
    case WriterTake => s.(taken := s.taken + 1, writer := WHandle)
    case WriterPacket(result) =>
      var packet := s.accepted[s.taken - 1];
      (match result
       case Finished =>
         s.(writer := WSelect, handled := s.taken,
            written := if packet.hooked then s.written else s.written + [packet])
       case WriteFailed(reason) => EnterStop(s, Writer, reason).(writer := WStopping(true, false))
       case HookFailed(reason) => EnterStop(s, Writer, reason).(writer := WStopping(true, true))
       case WriteHookStops(reason) =>
         EnterStop(s, Writer, reason).(writer := WStopping(false, false), handled := s.taken))
    case WriterSeesStop => s.(writer := WFinish(true))
    case WriterNotify => s.(writer := WClosing, pushed := if s.writer.notify then s.reason else s.pushed)
    case WriterClose => s.(writer := WDone, connClosed := true)
    case CallStop(n, reason) => EnterStop(s, Other(n), reason).(callers := s.callers - 1)
    case RaiseFlag(party) =>
      if s.flag then LeaveStop(s, party)
      else s.(flag := true, stops := s.stops[party := AtClose(s.stops[party].reason)])
    case CloseSignal(party) => s.(closes := s.closes + 1, stops := s.stops[party := AtReason(s.stops[party].reason)])
    case StoreReason(party) => s.(reason := s.stops[party].reason, stops := s.stops[party := AtCleanUp])
    case CleanUp(party) => LeaveStop(s, party)
    case Receive(packet) => s.(accepted := s.accepted + [packet], upstream := s.upstream - 1)
    case ReceiveStopped => s.(upstream := s.upstream - 1)
  }

  ghost predicate IsRun(states: seq<State>, steps: seq<Step>) {
    && |states| == |steps| + 1
    && forall n | 0 <= n < |steps| :: Enabled(states[n], steps[n]) && states[n + 1] == Apply(states[n], steps[n])
  }

  // ----- invariants -----

  /** The flag admits one party past it, ever, so the signal is closed at most once. */
  ghost predicate OneStopper(s: State) {
    && s.closes <= 1
    && (!s.flag ==> s.closes == 0 && forall p | p in s.stops :: s.stops[p].AtFlag?)
    && (forall p, q | p in s.stops && q in s.stops && !s.stops[p].AtFlag? && !s.stops[q].AtFlag? :: p == q)
    && (forall p | p in s.stops && s.stops[p].AtClose? :: s.closes == 0)
    && (forall p | p in s.stops && (s.stops[p].AtReason? || s.stops[p].AtCleanUp?) :: s.closes == 1)
    && (s.flag && s.closes == 0 ==> exists p :: p in s.stops && s.stops[p].AtClose?)
  }

  ghost predicate LoopsConsistent(s: State) {
    && (Reader in s.stops <==> s.reader.RStopping?)
    && (Writer in s.stops <==> s.writer.WStopping?)
    && (s.reader.RDone? ==> s.flag)
    && (s.writer.WFinish? || s.writer.WClosing? || s.writer.WDone? ==> s.flag)
    && (s.writer.WDone? <==> s.connClosed)
  }

  function NonHooked(packets: seq<Packet>): seq<Packet> {
    if packets == [] then []
    else
      var last := packets[|packets| - 1];
      NonHooked(packets[..|packets| - 1]) + if last.hooked then [] else [last]
  }

  ghost predicate Fifo(s: State) {
    && s.handled <= s.taken <= |s.accepted| <= s.taken + MAX_PENDING
    && (s.writer.WSelect? ==> s.handled == s.taken)
    && (s.writer.WHandle? ==> s.handled + 1 == s.taken)
    && (s.writer.WStopping? && !s.writer.exit ==> s.handled == s.taken)
    && s.written == NonHooked(s.accepted[..s.handled])
  }

  ghost predicate Inv(s: State) {
    OneStopper(s) && LoopsConsistent(s) && Fifo(s)
  }

  predicate StopStep(e: Step) {
    e.RaiseFlag? || e.CloseSignal? || e.StoreReason? || e.CleanUp?
  }

  /** Who starts a call of the stop procedure in a step, if anybody. */
  function Caller(e: Step): Party {
    match e
    case CallStop(n, _) => Other(n)
    case WriterPacket(_) => Writer
    case _ => Reader
  }

  lemma CallerOnly(s: State, e: Step)
    requires LoopsConsistent(s) && Enabled(s, e) && !StopStep(e)
    ensures var t, c := Apply(s, e), Caller(e);
            && t.flag == s.flag && t.closes == s.closes
            && (t.stops == s.stops ||
                (c !in s.stops && c in t.stops && t.stops[c].AtFlag? && t.stops == s.stops[c := t.stops[c]]))
  {
  }

  /** Outside the stop procedure a step at most starts a new call of it. */
  lemma CallsOnly(s: State, e: Step)
    requires LoopsConsistent(s) && Enabled(s, e) && !StopStep(e)
    ensures var t := Apply(s, e);
            && t.flag == s.flag && t.closes == s.closes
            && (forall p | p in s.stops :: p in t.stops && t.stops[p] == s.stops[p])
            && (forall p | p in t.stops :: p in s.stops || t.stops[p].AtFlag?)
  {
    CallerOnly(s, e);
  }

  lemma StopperStep(s: State, e: Step)
    requires Inv(s) && Enabled(s, e)
    ensures OneStopper(Apply(s, e))
  {
    var t := Apply(s, e);
    if !StopStep(e) {
      CallsOnly(s, e);
    } else {
      InsideStep(s, e);
    }
    if e.RaiseFlag? && !s.flag {
      assert e.party in t.stops && t.stops[e.party].AtClose?;
    } else if t.flag && t.closes == 0 {
      var p :| p in s.stops && s.stops[p].AtClose?;
      assert p in t.stops && t.stops[p].AtClose?;
    }
  }

  function NextStage(stage: Stage): Stage {
    match stage
    case AtFlag(reason) => AtClose(reason)
    case AtClose(reason) => AtReason(reason)
    case _ => AtCleanUp
  }

  /** Inside the stop procedure only the stepping party's stage changes. */
  lemma InsideStep(s: State, e: Step)
    requires Inv(s) && Enabled(s, e) && StopStep(e)
    ensures var t := Apply(s, e);
            && (forall p | p in t.stops && p != e.party :: p in s.stops && t.stops[p] == s.stops[p])
            && (forall p | p in s.stops && p != e.party :: p in t.stops)
            && (e.party in t.stops <==> !(e.CleanUp? || (e.RaiseFlag? && s.flag)))
            && (e.party in t.stops ==> t.stops[e.party] == NextStage(s.stops[e.party]))
            && t.flag == (s.flag || e.RaiseFlag?) && t.closes == (if e.CloseSignal? then s.closes + 1 else s.closes)
            && (t.reader == s.reader || (e.party == Reader && e.party !in t.stops && !t.reader.RStopping?))
            && (t.writer == s.writer || (e.party == Writer && e.party !in t.stops && !t.writer.WStopping?))
  {
  }

  lemma LoopsOwnStep(s: State, e: Step)
    requires OneStopper(s) && LoopsConsistent(s) && Enabled(s, e) && !StopStep(e)
    ensures LoopsConsistent(Apply(s, e))
  {
    CallerOnly(s, e);
  }

  lemma LoopsStopStep(s: State, e: Step)
    requires Inv(s) && Enabled(s, e) && StopStep(e)
    ensures LoopsConsistent(Apply(s, e))
  {
    InsideStep(s, e);
    LeaveMeansFlag(s, e);
  }

  lemma LoopsStep(s: State, e: Step)
    requires Inv(s) && Enabled(s, e)
    ensures LoopsConsistent(Apply(s, e))
  {
    if StopStep(e) {
      LoopsStopStep(s, e);
    } else {
      LoopsOwnStep(s, e);
    }
  }

  lemma LeaveMeansFlag(s: State, e: Step)
    requires Inv(s) && Enabled(s, e) && StopStep(e)
    ensures var t := Apply(s, e);
            && t.connClosed == s.connClosed
            && (t.reader != s.reader ==> s.flag && !t.reader.RStopping?)
            && (t.writer != s.writer ==>
                  s.flag && !t.writer.WStopping? && !t.writer.WDone? && !s.writer.WDone?)
            && (e.party == Reader && e.party !in t.stops ==> !t.reader.RStopping?)
            && (e.party == Writer && e.party !in t.stops ==> !t.writer.WStopping?)
  {
  }

  /** What a step does to the packets. */
  ghost predicate PacketFrame(s: State, e: Step, t: State) {
    && (t.accepted == s.accepted ||
        (|s.accepted| < s.taken + MAX_PENDING && exists p :: t.accepted == s.accepted + [p]))
    && (t.handled == s.handled ==> t.written == s.written)
    && (t.taken != s.taken ==> s.writer.WSelect? && t.writer.WHandle? && t.taken == s.taken + 1 <= |s.accepted|)
    && (t.handled != s.handled ==>
          && s.writer.WHandle? && t.handled == s.taken && t.taken == s.taken && t.accepted == s.accepted && 0 < s.taken
          && (s.taken <= |s.accepted|)
          && t.written == if s.accepted[s.taken - 1].hooked then s.written else s.written + [s.accepted[s.taken - 1]])
    && (t.writer.WSelect? ==>
          || s.writer.WSelect?
          || (s.writer.WStopping? && !s.writer.exit)
          || (s.writer.WHandle? && t.handled == s.taken))
    && (t.writer.WHandle? ==> t.handled == s.handled)
    && (t.writer.WHandle? ==> s.writer == t.writer || (s.writer.WSelect? && t.taken == s.taken + 1))
    && (t.writer.WStopping? && !t.writer.exit ==> s.writer == t.writer || (s.writer.WHandle? && t.handled == s.taken))
  }

  lemma StopPacketFrame(s: State, e: Step)
    requires Fifo(s) && Enabled(s, e) && StopStep(e)
    ensures PacketFrame(s, e, Apply(s, e))
  {
  }

  lemma WriterPacketFrame(s: State, e: Step)
    requires Fifo(s) && Enabled(s, e) && (e.WriterTake? || e.WriterPacket?)
    ensures PacketFrame(s, e, Apply(s, e))
  {
  }

  lemma OtherPacketFrame(s: State, e: Step)
    requires Fifo(s) && Enabled(s, e) && !StopStep(e) && !e.WriterTake? && !e.WriterPacket?
    ensures PacketFrame(s, e, Apply(s, e))
  {
    if e.Receive? {
      assert Apply(s, e).accepted == s.accepted + [e.packet];
    }
  }

  lemma StepPacketFrame(s: State, e: Step)
    requires Fifo(s) && Enabled(s, e)
    ensures PacketFrame(s, e, Apply(s, e))
  {
    if StopStep(e) {
      StopPacketFrame(s, e);
    } else if e.WriterTake? || e.WriterPacket? {
      WriterPacketFrame(s, e);
    } else {
      OtherPacketFrame(s, e);
    }
  }

  lemma FifoFrom(s: State, e: Step, t: State)
    requires Fifo(s) && PacketFrame(s, e, t)
    ensures Fifo(t)
  {
    assert t.accepted[..s.handled] == s.accepted[..s.handled];
    if t.handled != s.handled {
      assert t.accepted[..t.handled][..s.handled] == s.accepted[..s.handled];
    }
  }

  lemma FifoStep(s: State, e: Step)
    requires Fifo(s) && Enabled(s, e)
    ensures Fifo(Apply(s, e))
  {
    StepPacketFrame(s, e);
    FifoFrom(s, e, Apply(s, e));
  }

  lemma InvStep(s: State, e: Step)
    requires Inv(s) && Enabled(s, e)
    ensures Inv(Apply(s, e))
  {
    StopperStep(s, e);
    LoopsStep(s, e);
    FifoStep(s, e);
  }

  lemma {:induction false} InvRun(states: seq<State>, steps: seq<Step>, upstream: nat, callers: nat)
    requires IsRun(states, steps) && states[0] == Initial(upstream, callers)
    ensures Inv(states[|steps|])
    decreases |steps|
  {
    if steps != [] {
      var m := |steps| - 1;
      InvRun(states[..m + 1], steps[..m], upstream, callers);
      InvStep(states[m], steps[m]);
    }
  }

  // ----- the main results -----

  /** In every reachable state: the signal was closed at most once; a finished read loop means
      that a stop has begun; a finished write loop means in addition that the connection is
      closed; and a begun stop either closed the signal or is about to. */
  lemma ShutdownSafety(states: seq<State>, steps: seq<Step>, upstream: nat, callers: nat)
    requires IsRun(states, steps) && states[0] == Initial(upstream, callers)
    ensures var s := states[|steps|];
            && s.closes <= 1
            && (s.reader.RDone? ==> s.flag)
            && (s.writer.WDone? ==> s.flag && s.connClosed)
            && (s.flag ==> s.closes == 1 || exists p :: Enabled(s, CloseSignal(p)))
  {
    InvRun(states, steps, upstream, callers);
    if states[|steps|].flag {
      SignalComes(states[|steps|]);
    }
  }

  /** What was written to the connection is the non-hooked part of a prefix of what was accepted,
      in order, and the queue never holds more than its capacity. */
  lemma WrittenInOrder(states: seq<State>, steps: seq<Step>, upstream: nat, callers: nat)
    requires IsRun(states, steps) && states[0] == Initial(upstream, callers)
    ensures var s := states[|steps|];
            && s.handled <= s.taken <= |s.accepted| <= s.taken + 10
            && s.written == NonHooked(s.accepted[..s.handled])
            && (s.writer.WSelect? && s.taken == |s.accepted| ==> s.written == NonHooked(s.accepted))
  {
    InvRun(states, steps, upstream, callers);
    var s := states[|steps|];
    assert s.handled == |s.accepted| ==> s.accepted[..s.handled] == s.accepted;
  }

  lemma NonHookedOfLast(front: seq<Packet>, p: Packet)
    ensures NonHooked([p]) == if p.hooked then [] else [p]
    ensures NonHooked(front + [p]) == NonHooked(front) + NonHooked([p])
  {
    assert [p][..0] == [] && (front + [p])[..|front|] == front;
  }

  /** What `NonHooked` keeps: of every part of a list exactly the packets without a hook, in order. */
  lemma {:induction false} NonHookedSplits(a: seq<Packet>, b: seq<Packet>)
    ensures NonHooked(a + b) == NonHooked(a) + NonHooked(b)
    decreases |b|
  {
    if b == [] {
      assert a + b == a;
    } else {
      var front, p := b[..|b| - 1], b[|b| - 1];
      assert b == front + [p] && a + b == (a + front) + [p];
      NonHookedSplits(a, front);
      NonHookedOfLast(a + front, p);
      NonHookedOfLast(front, p);
    }
  }

  /** The packets that the steps of a run put into the queue, in order. */
  function Received(steps: seq<Step>): seq<Packet> {
    if steps == [] then []
    else Received(steps[..|steps| - 1]) + match steps[|steps| - 1]
                                          case Receive(packet) => [packet]
                                          case _ => []
  }

  lemma {:induction false} AcceptedAreReceived(states: seq<State>, steps: seq<Step>, upstream: nat, callers: nat)
    requires IsRun(states, steps) && states[0] == Initial(upstream, callers)
    ensures states[|steps|].accepted == Received(steps)
    decreases |steps|
  {
    if steps != [] {
      var m := |steps| - 1;
      AcceptedAreReceived(states[..m + 1], steps[..m], upstream, callers);
      AcceptStep(states[m], steps[m]);
    }
  }

  lemma AcceptStep(s: State, e: Step)
    requires Enabled(s, e)
    ensures Apply(s, e).accepted == s.accepted + (match e case Receive(packet) => [packet] case _ => [])
  {
  }

  /** With an idle write loop and an empty queue, a packet that arrives is forwarded at once, unless
      a hook takes it. */
  lemma PacketGetsThrough(s: State, p: Packet)
    requires Inv(s) && s.writer.WSelect? && s.taken == |s.accepted| && s.upstream > 0
    ensures Enabled(s, Receive(p))
    ensures var s1 := Apply(s, Receive(p));
            && Enabled(s1, WriterTake) && Enabled(Apply(s1, WriterTake), WriterPacket(Finished))
            && var t := Apply(Apply(s1, WriterTake), WriterPacket(Finished));
               t.writer.WSelect? && t.written == s.written + if p.hooked then [] else [p]
  {
  }

  // ----- termination -----

  function ReaderRank(r: ReaderPc): nat {
    match r
    case RDone => 0
    case RSelect => 1
    case RStopping(_) => 2
    case RPacket => 5
    case RRead => 6
  }

  function WriterRank(w: WriterPc): nat {
    match w
    case WDone => 0
    case WClosing => 1
    case WFinish(_) => 2
    case WSelect => 3
    case WStopping(_, _) => 4
    case WHandle => 7
  }

  predicate Storing(s: State) {
    exists p | p in s.stops :: s.stops[p].AtReason?
  }

  /** The work left once the signal is closed. */
  ghost function Rank(s: State): nat
    requires s.taken <= |s.accepted|
  {
    ReaderRank(s.reader) + WriterRank(s.writer)
    + 2 * |s.stops| + (if Storing(s) then 1 else 0)
    + 5 * (|s.accepted| - s.taken) + 6 * s.upstream + 3 * s.callers
  }

  lemma LeaveStopSize(s: State, party: Party)
    requires party in s.stops
    ensures |LeaveStop(s, party).stops| == |s.stops| - 1
  {
    assert s.stops.Keys == (s.stops - {party}).Keys + {party};
  }

  lemma EnterStopSize(s: State, party: Party, reason: nat)
    requires party !in s.stops
    ensures |EnterStop(s, party, reason).stops| == |s.stops| + 1
  {
    assert EnterStop(s, party, reason).stops.Keys == s.stops.Keys + {party};
  }

  lemma SameSize(s: State, party: Party, stage: Stage)
    requires party in s.stops
    ensures |s.stops[party := stage]| == |s.stops|
  {
    assert s.stops[party := stage].Keys == s.stops.Keys;
  }

  /** With the signal closed, nobody starts to store the reason any more. */
  lemma ReasonStage(s: State, e: Step)
    requires Inv(s) && s.closes == 1 && Enabled(s, e)
    ensures Storing(Apply(s, e)) ==> Storing(s) && !e.StoreReason?
    ensures Apply(s, e).closes == 1 && (e.StoreReason? ==> Storing(s))
  {
    if StopStep(e) {
      InsideStep(s, e);
    } else {
      CallsOnly(s, e);
    }
  }

  lemma StopRank(s: State, e: Step)
    requires Inv(s) && s.closes == 1 && Enabled(s, e) && StopStep(e)
    ensures ReaderRank(Apply(s, e).reader) <= ReaderRank(s.reader)
    ensures WriterRank(Apply(s, e).writer) <= WriterRank(s.writer)
    ensures |Apply(s, e).stops| <= |s.stops| && (|Apply(s, e).stops| < |s.stops| || e.StoreReason?)
    ensures Apply(s, e).taken == s.taken && Apply(s, e).accepted == s.accepted
    ensures Apply(s, e).upstream == s.upstream && Apply(s, e).callers == s.callers
  {
    match e
    case RaiseFlag(party) => LeaveStopSize(s, party);
    case StoreReason(party) => SameSize(s, party, AtCleanUp);
    case CleanUp(party) => LeaveStopSize(s, party);
    case CloseSignal(_) =>
  }

  lemma LoopRank(s: State, e: Step)
    requires Inv(s) && s.closes == 1 && Enabled(s, e) && !StopStep(e)
    ensures var t := Apply(s, e);
            && t.taken <= |t.accepted|
            && ReaderRank(t.reader) + WriterRank(t.writer) + 2 * |t.stops|
               + 5 * (|t.accepted| - t.taken) + 6 * t.upstream + 3 * t.callers
               < ReaderRank(s.reader) + WriterRank(s.writer) + 2 * |s.stops|
                 + 5 * (|s.accepted| - s.taken) + 6 * s.upstream + 3 * s.callers
  {
    match e
    case ReaderRead(got, reason) =>
      if !got {
        EnterStopSize(s, Reader, reason);
      }
    case ReaderPacket(result) =>
      if !result.Forwarded? {
        EnterStopSize(s, Reader, if result.Rejected? then result.packetReason else result.hookReason);
      }
    case WriterPacket(result) =>
      if !result.Finished? {
        EnterStopSize(s, Writer, if result.WriteFailed? then result.writeReason
                                 else if result.HookFailed? then result.decodeReason else result.respReason);
      }
    case CallStop(n, reason) => EnterStopSize(s, Other(n), reason);
    case _ =>
  }

  lemma RankStep(s: State, e: Step)
    requires Inv(s) && s.closes == 1 && Enabled(s, e)
    ensures Inv(Apply(s, e)) && Apply(s, e).closes == 1
    ensures Rank(Apply(s, e)) < Rank(s)
  {
    InvStep(s, e);
    ReasonStage(s, e);
    if StopStep(e) {
      StopRank(s, e);
    } else {
      LoopRank(s, e);
    }
  }

  /** A step nothing outside the agent can withhold: a read on a closed connection fails, a
      packet in hand gets some result. */
  predicate Forced(s: State, e: Step) {
    Enabled(s, e) && !e.Receive? && !e.ReceiveStopped? && !e.CallStop? && (e.ReaderRead? ==> s.connClosed)
  }

  lemma ForcedStepExists(s: State)
    requires Inv(s) && s.flag && !(s.reader.RDone? && s.writer.WDone?)
    ensures exists e :: Forced(s, e)
  {
    if p :| p in s.stops {
      assert Forced(s, match s.stops[p]
                       case AtFlag(_) => RaiseFlag(p)
                       case AtClose(_) => CloseSignal(p)
                       case AtReason(_) => StoreReason(p)
                       case _ => CleanUp(p));
    } else if !s.writer.WDone? {
      assert Forced(s, match s.writer
                       case WSelect => WriterSeesStop
                       case WHandle => WriterPacket(Finished)
                       case WFinish(_) => WriterNotify
                       case _ => WriterClose);
    } else {
      assert Forced(s, if s.reader.RSelect? then ReaderSelect
                       else if s.reader.RPacket? then ReaderPacket(Forwarded)
                       else ReaderRead(false, UNKNOWN));
    }
  }

  lemma {:induction false} RankRun(states: seq<State>, steps: seq<Step>)
    requires IsRun(states, steps) && Inv(states[0]) && states[0].closes == 1
    ensures Inv(states[|steps|]) && states[|steps|].closes == 1
    ensures |steps| + Rank(states[|steps|]) <= Rank(states[0])
    decreases |steps|
  {
    if steps != [] {
      var m := |steps| - 1;
      RankRun(states[..m + 1], steps[..m]);
      RankStep(states[m], steps[m]);
    }
  }

  lemma FlagStep(s: State, e: Step)
    requires Enabled(s, e) && s.flag
    ensures Apply(s, e).flag
  {
  }

  lemma {:induction false} FlagStays(states: seq<State>, steps: seq<Step>, n: nat)
    requires IsRun(states, steps) && Inv(states[0]) && states[0].flag && n <= |steps|
    ensures Inv(states[n]) && states[n].flag
    decreases n
  {
    if n > 0 {
      FlagStays(states, steps, n - 1);
      InvStep(states[n - 1], steps[n - 1]);
      FlagStep(states[n - 1], steps[n - 1]);
    }
  }

  /** Until a begun stop has closed the signal, the step that closes it is enabled. */
  lemma SignalComes(s: State)
    requires Inv(s) && s.flag
    ensures s.closes == 1 || exists p :: Enabled(s, CloseSignal(p))
  {
    if s.closes == 0 {
      var p :| p in s.stops && s.stops[p].AtClose?;
      assert Enabled(s, CloseSignal(p));
    }
  }

  /** Once a stop has begun, whoever calls stop again and whatever else arrives: until the signal is
      closed the step that closes it is enabled; from then on every continuation is finite; and it
      cannot get stuck before both loops have ended and the connection is closed. */
  lemma StopEndsBothLoops(states: seq<State>, steps: seq<Step>, upstream: nat, callers: nat,
                          more: seq<State>, rest: seq<Step>, n: nat)
    requires IsRun(states, steps) && states[0] == Initial(upstream, callers) && states[|steps|].flag
    requires IsRun(more, rest) && more[0] == states[|steps|] && n <= |rest|
    ensures more[n].closes == 1 || exists p :: Enabled(more[n], CloseSignal(p))
    ensures more[n].closes == 1 ==> more[n].taken <= |more[n].accepted| && |rest| - n <= Rank(more[n])
    ensures var t := more[|rest|];
            (forall e :: !Forced(t, e)) ==> t.reader.RDone? && t.writer.WDone? && t.connClosed
  {
    InvRun(states, steps, upstream, callers);
    FlagStays(more, rest, n);
    SignalComes(more[n]);
    FlagStays(more, rest, |rest|);
    if more[n].closes == 1 {
      RankRun(more[n..], rest[n..]);
    }
    var t := more[|rest|];
    if !(t.reader.RDone? && t.writer.WDone?) {
      ForcedStepExists(t);
    }
  }

  // ----- the disconnect notice -----

  /** The write loop has looked at the reason. */
  predicate Notified(s: State) {
    s.writer.WClosing? || s.writer.WDone?
  }

  /** Some stop has begun and its reason is stored. */
  ghost predicate ReasonStored(s: State) {
    s.flag && forall p | p in s.stops :: s.stops[p].AtFlag? || s.stops[p].AtCleanUp?
  }

  lemma ReasonStep(s: State, e: Step)
    requires Inv(s) && Enabled(s, e)
    ensures e.StoreReason? ==> !ReasonStored(s) && ReasonStored(Apply(s, e))
    ensures !e.StoreReason? ==> (ReasonStored(Apply(s, e)) <==> ReasonStored(s)) && Apply(s, e).reason == s.reason
  {
    if StopStep(e) {
      InsideStep(s, e);
      assert e.RaiseFlag? && !s.flag ==> Apply(s, e).stops[e.party].AtClose?;
      assert e.CloseSignal? ==> Apply(s, e).stops[e.party].AtReason?;
    } else {
      CallsOnly(s, e);
    }
  }

  lemma {:induction false} InvAt(states: seq<State>, steps: seq<Step>, upstream: nat, callers: nat, n: nat)
    requires IsRun(states, steps) && states[0] == Initial(upstream, callers) && n <= |steps|
    ensures Inv(states[n])
  {
    InvRun(states[..n + 1], steps[..n], upstream, callers);
  }

  lemma {:induction false} ReasonHistory(states: seq<State>, steps: seq<Step>, upstream: nat, callers: nat, n: nat)
    requires IsRun(states, steps) && states[0] == Initial(upstream, callers) && n <= |steps|
    ensures ReasonStored(states[n]) <==> exists j | 0 <= j < n :: steps[j].StoreReason?
    ensures !ReasonStored(states[n]) ==> states[n].reason == UNKNOWN
    decreases n
  {
    if n > 0 {
      ReasonHistory(states, steps, upstream, callers, n - 1);
      InvAt(states, steps, upstream, callers, n - 1);
      var s, e, t := states[n - 1], steps[n - 1], states[n];
      ReasonStep(s, e);
      assert t == Apply(s, e);
      assert (exists j | 0 <= j < n :: steps[j].StoreReason?) <==>
             e.StoreReason? || exists j | 0 <= j < n - 1 :: steps[j].StoreReason?;
    }
  }

  lemma {:induction false} PushHistory(states: seq<State>, steps: seq<Step>, upstream: nat, callers: nat, n: nat)
    requires IsRun(states, steps) && states[0] == Initial(upstream, callers) && n <= |steps|
    ensures !Notified(states[n]) ==> states[n].pushed == UNKNOWN
    decreases n
  {
    if n > 0 {
      PushHistory(states, steps, upstream, callers, n - 1);
      InvAt(states, steps, upstream, callers, n - 1);
      PushStep(states[n - 1], steps[n - 1]);
    }
  }

  /** What is stored stays, and what is pushed stays. */
  lemma {:induction false} ReasonAndPushStay(states: seq<State>, steps: seq<Step>, upstream: nat, callers: nat, m: nat)
    requires IsRun(states, steps) && states[0] == Initial(upstream, callers) && m <= |steps|
    ensures ReasonStored(states[m]) ==> states[|steps|].reason == states[m].reason
    ensures Notified(states[m]) ==> states[|steps|].pushed == states[m].pushed
    decreases |steps| - m
  {
    if m < |steps| {
      InvAt(states, steps, upstream, callers, m);
      ReasonStep(states[m], steps[m]);
      PushStep(states[m], steps[m]);
      ReasonAndPushStay(states, steps, upstream, callers, m + 1);
    }
  }

  lemma PushStep(s: State, e: Step)
    requires Inv(s) && Enabled(s, e)
    ensures Notified(s) || !Notified(Apply(s, e)) ==> Apply(s, e).pushed == s.pushed
    ensures Notified(s) ==> Notified(Apply(s, e))
  {
  }

  /** The step starts a call of the stop procedure by `party`, for `reason`. */
  predicate Enters(e: Step, party: Party, reason: nat) {
    match e
    case CallStop(n, r) => party == Other(n) && r == reason
    case ReaderRead(got, r) => party == Reader && !got && r == reason
    case ReaderPacket(Rejected(r)) => party == Reader && r == reason
    case ReaderPacket(HookStops(r)) => party == Reader && r == reason
    case WriterPacket(WriteFailed(r)) => party == Writer && r == reason
    case WriterPacket(HookFailed(r)) => party == Writer && r == reason
    case WriterPacket(WriteHookStops(r)) => party == Writer && r == reason
    case _ => false
  }

  /** The party called stop at step `j` for that reason and has been inside since. */
  ghost predicate Called(states: seq<State>, steps: seq<Step>, n: nat, party: Party, reason: nat, j: nat)
    requires IsRun(states, steps) && n <= |steps|
  {
    j < n && Enters(steps[j], party, reason) && forall m | j < m <= n :: party in states[m].stops
  }

  /** The party that called stop at `j` was the first to raise the flag, at `k`. */
  ghost predicate Won(states: seq<State>, steps: seq<Step>, party: Party, j: nat, k: nat)
    requires IsRun(states, steps)
  {
    j < k < |steps| && steps[k] == RaiseFlag(party) && !states[k].flag
  }

  /** The reason that a party carries through the stop procedure is the one it called it for. */
  ghost predicate StageTold(states: seq<State>, steps: seq<Step>, n: nat, party: Party)
    requires IsRun(states, steps) && n <= |steps| && party in states[n].stops
  {
    match states[n].stops[party]
    case AtFlag(reason) => exists j :: Called(states, steps, n, party, reason, j)
    case AtClose(reason) =>
      exists j, k :: Called(states, steps, n, party, reason, j) && Won(states, steps, party, j, k)
    case AtReason(reason) =>
      exists j, k :: Called(states, steps, n, party, reason, j) && Won(states, steps, party, j, k)
    case AtCleanUp => true
  }

  lemma StagesStep(s: State, e: Step, party: Party)
    requires LoopsConsistent(s) && Enabled(s, e) && party in Apply(s, e).stops
    ensures var stage := Apply(s, e).stops[party];
            || (party in s.stops && stage == s.stops[party])
            || (party !in s.stops && stage.AtFlag? && Enters(e, party, stage.reason))
            || (party in s.stops && e == RaiseFlag(party) && !s.flag && stage == AtClose(s.stops[party].reason))
            || (party in s.stops && e == CloseSignal(party) && stage == AtReason(s.stops[party].reason))
            || stage.AtCleanUp?
  {
  }

  lemma StageToldStep(states: seq<State>, steps: seq<Step>, n: nat, party: Party)
    requires IsRun(states, steps) && 0 < n <= |steps| && LoopsConsistent(states[n - 1]) && party in states[n].stops
    requires party in states[n - 1].stops ==> StageTold(states, steps, n - 1, party)
    ensures StageTold(states, steps, n, party)
  {
    var s, e := states[n - 1], steps[n - 1];
    StagesStep(s, e, party);
    if party !in s.stops {
      if states[n].stops[party].AtFlag? {
        assert Called(states, steps, n, party, states[n].stops[party].reason, n - 1);
      }
    } else if !states[n].stops[party].AtCleanUp? {
      var reason := s.stops[party].reason;
      if s.stops[party].AtFlag? {
        var j :| Called(states, steps, n - 1, party, reason, j);
        assert Called(states, steps, n, party, reason, j);
        assert e == RaiseFlag(party) && !s.flag ==> Won(states, steps, party, j, n - 1);
      } else {
        var j, k :| Called(states, steps, n - 1, party, reason, j) && Won(states, steps, party, j, k);
        assert Called(states, steps, n, party, reason, j);
      }
    }
  }

  lemma {:induction false} StagesTold(states: seq<State>, steps: seq<Step>, upstream: nat, callers: nat, n: nat)
    requires IsRun(states, steps) && states[0] == Initial(upstream, callers) && n <= |steps|
    ensures forall party | party in states[n].stops :: StageTold(states, steps, n, party)
    decreases n
  {
    if n > 0 {
      StagesTold(states, steps, upstream, callers, n - 1);
      InvAt(states, steps, upstream, callers, n - 1);
      forall party | party in states[n].stops ensures StageTold(states, steps, n, party) {
        StageToldStep(states, steps, n, party);
      }
    }
  }

  /** The reason of a stop is the one given by the call that raised the flag. */
  lemma ReasonOfTheFirstCall(states: seq<State>, steps: seq<Step>, upstream: nat, callers: nat, m: nat, party: Party)
    requires IsRun(states, steps) && states[0] == Initial(upstream, callers)
    requires m < |steps| && steps[m] == StoreReason(party)
    ensures exists j, k :: Called(states, steps, m, party, states[|steps|].reason, j) && Won(states, steps, party, j, k)
  {
    StagesTold(states, steps, upstream, callers, m);
    InvAt(states, steps, upstream, callers, m);
    ReasonStep(states[m], steps[m]);
    ReasonAndPushStay(states, steps, upstream, callers, m + 1);
    assert party in states[m].stops && StageTold(states, steps, m, party);
    assert states[m + 1].reason == states[m].stops[party].reason;
  }

  // ----- what the loops do with what they get -----

  /** A step that calls stop puts its party into the stop procedure, with its reason, and nothing
      else does. */
  lemma EntersIff(s: State, e: Step, party: Party, reason: nat)
    requires LoopsConsistent(s) && Enabled(s, e)
    ensures Enters(e, party, reason) <==>
            party !in s.stops && party in Apply(s, e).stops && Apply(s, e).stops[party] == AtFlag(reason)
  {
  }

  /** Every packet that the read loop reads is handled: after a successful read the next step of the
      loop handles the packet, whatever comes of it. */
  lemma {:induction false} HandlesWhatItReads(states: seq<State>, steps: seq<Step>)
    requires IsRun(states, steps) && states[0].reader.RSelect?
    ensures states[|steps|].reader.RPacket? <==>
            exists j | 0 <= j < |steps| ::
              steps[j].ReaderRead? && steps[j].got && forall m | j < m < |steps| :: !steps[m].ReaderPacket?
    decreases |steps|
  {
    if steps != [] {
      var m := |steps| - 1;
      var before, run := states[..m + 1], steps[..m];
      HandlesWhatItReads(before, run);
      assert forall j | 0 <= j < m :: run[j] == steps[j];
      ReadStep(states[m], steps[m]);
    }
  }

  lemma ReadStep(s: State, e: Step)
    requires Enabled(s, e)
    ensures Apply(s, e).reader.RPacket? <==>
            (e.ReaderRead? && e.got) || (s.reader.RPacket? && !e.ReaderPacket?)
    ensures s.reader.RPacket? ==> forall result :: Enabled(s, ReaderPacket(result))
  {
  }

  /** While the signal is not closed and the connection is open, the read loop reads and forwards one
      packet after the other. */
  lemma ReadLoopGoesRound(s: State)
    requires s.reader.RSelect? && s.closes == 0 && !s.connClosed
    ensures Enabled(s, ReaderSelect)
    ensures var s1 := Apply(s, ReaderSelect);
            && Enabled(s1, ReaderRead(true, UNKNOWN))
            && Enabled(Apply(s1, ReaderRead(true, UNKNOWN)), ReaderPacket(Forwarded))
            && Apply(Apply(s1, ReaderRead(true, UNKNOWN)), ReaderPacket(Forwarded)) == s
  {
  }

  /** Anybody may call stop at any time, before and after others did; only the first call counts. */
  lemma StopMayAlwaysBeCalled(s: State, n: nat, reason: nat)
    requires Other(n) !in s.stops && s.callers > 0
    ensures Enabled(s, CallStop(n, reason)) && Enabled(Apply(s, CallStop(n, reason)), RaiseFlag(Other(n)))
    ensures s.flag ==> Apply(Apply(s, CallStop(n, reason)), RaiseFlag(Other(n))) == s.(callers := s.callers - 1)
  {
    assert s.stops[Other(n) := AtFlag(reason)] - {Other(n)} == s.stops;
  }

  /** A party that brings a packet waits exactly while the queue is full and no stop has closed the
      signal. */
  lemma ReceiverWaitsIff(s: State, p: Packet)
    requires Fifo(s) && s.upstream > 0
    ensures !Enabled(s, Receive(p)) && !Enabled(s, ReceiveStopped) <==>
            |s.accepted| - s.taken == 10 && s.closes == 0
  {
  }

  // ----- when the read loop ends -----

  /** The step makes the read loop end: it sees the signal, or a read or a packet fails. */
  predicate EndsReader(s: State, e: Step) {
    (e.ReaderSelect? && s.closes > 0) || (e.ReaderRead? && !e.got) || (e.ReaderPacket? && e.readResult.Rejected?)
  }

  predicate ReaderEnding(s: State) {
    s.reader.RDone? || (s.reader.RStopping? && s.reader.exit)
  }

  /** A step ends the read loop exactly then; a packet that is forwarded, and a hook that stops the
      agent, send it back to look at the signal. */
  lemma ReaderStep(s: State, e: Step)
    requires LoopsConsistent(s) && Enabled(s, e)
    ensures ReaderEnding(Apply(s, e)) <==> ReaderEnding(s) || EndsReader(s, e)
  {
  }

  /** The read loop ends exactly when it has seen the signal, or a read or a packet has failed. */
  lemma {:induction false} ReaderEndsIff(states: seq<State>, steps: seq<Step>, upstream: nat, callers: nat)
    requires IsRun(states, steps) && states[0] == Initial(upstream, callers)
    ensures ReaderEnding(states[|steps|]) <==> exists n | 0 <= n < |steps| :: EndsReader(states[n], steps[n])
    decreases |steps|
  {
    if steps != [] {
      var m := |steps| - 1;
      var before, run := states[..m + 1], steps[..m];
      ReaderEndsIff(before, run, upstream, callers);
      InvAt(states, steps, upstream, callers, m);
      ReaderStep(states[m], steps[m]);
      assert forall n | 0 <= n < m :: before[n] == states[n] && run[n] == steps[n];
    }
  }

  /** A packet could not be written. */
  predicate FailsToWrite(e: Step) {
    e.WriterPacket? && e.writeResult.WriteFailed?
  }

  ghost predicate WriteHasFailed(steps: seq<Step>, n: nat) {
    exists j | 0 <= j < n && j < |steps| :: FailsToWrite(steps[j])
  }

  /** Where the write loop stands tells whether it failed to write. */
  predicate WriterTells(s: State, failed: bool) {
    match s.writer
    case WSelect => !failed
    case WHandle => !failed
    case WStopping(exit, notify) => if exit then notify == !failed else !failed
    case WFinish(notify) => notify == !failed
    case _ => true
  }

  lemma WriterTellsStep(s: State, e: Step, failed: bool)
    requires Enabled(s, e) && WriterTells(s, failed)
    ensures WriterTells(Apply(s, e), failed || FailsToWrite(e))
  {
  }

  lemma {:induction false} WriterTellsAt(states: seq<State>, steps: seq<Step>, upstream: nat, callers: nat, n: nat)
    requires IsRun(states, steps) && states[0] == Initial(upstream, callers) && n <= |steps|
    ensures WriterTells(states[n], WriteHasFailed(steps, n))
    decreases n
  {
    if n > 0 {
      WriterTellsAt(states, steps, upstream, callers, n - 1);
      WriterTellsStep(states[n - 1], steps[n - 1], WriteHasFailed(steps, n - 1));
      assert WriteHasFailed(steps, n) <==> WriteHasFailed(steps, n - 1) || FailsToWrite(steps[n - 1]);
    }
  }

  /** The write loop ends on a path that notifies exactly when it did not fail to write: after a
      stop signal and after a packet that cannot be decoded it does. */
  lemma NotifiesIff(states: seq<State>, steps: seq<Step>, upstream: nat, callers: nat, m: nat)
    requires IsRun(states, steps) && states[0] == Initial(upstream, callers)
    requires m < |steps| && steps[m] == WriterNotify
    ensures states[m].writer.WFinish?
    ensures states[m].writer.notify <==> !WriteHasFailed(steps, m)
  {
    WriterTellsAt(states, steps, upstream, callers, m);
    assert Enabled(states[m], steps[m]);
  }

  /** The client is told the reason of the stop exactly when there is nothing to tell, or the write
      loop never failed to write and the reason was stored before the loop looks at it. */
  lemma NoticeIff(states: seq<State>, steps: seq<Step>, upstream: nat, callers: nat, m: nat)
    requires IsRun(states, steps) && states[0] == Initial(upstream, callers)
    requires m < |steps| && steps[m] == WriterNotify
    ensures var s := states[|steps|];
            s.pushed == s.reason <==>
            || s.reason == UNKNOWN
            || (!WriteHasFailed(steps, m) && exists j | 0 <= j < m :: steps[j].StoreReason?)
  {
    NotifiesIff(states, steps, upstream, callers, m);
    ReasonHistory(states, steps, upstream, callers, m);
    PushHistory(states, steps, upstream, callers, m);
    ReasonAndPushStay(states, steps, upstream, callers, m);
    ReasonAndPushStay(states, steps, upstream, callers, m + 1);
    assert states[m + 1] == Apply(states[m], WriterNotify);
  }

  /** The signal is closed before the reason is stored: the write loop may look in between, and
      then no disconnect notice is sent although the stop has a reason. It is too late for that
      reason even while the connection is still open. */
  lemma NoticeCanBeMissed(reason: nat) returns (states: seq<State>, steps: seq<Step>)
    requires reason != UNKNOWN
    ensures IsRun(states, steps) && states[0] == Initial(0, 1) && |steps| > 0
    ensures var before := states[|steps| - 1]; before.reason == reason && !before.connClosed
    ensures var s := states[|steps|]; s.writer.WDone? && s.pushed == UNKNOWN && s.reason == reason
  {
    states := StopCalled(reason);
    steps := [CallStop(0, reason), RaiseFlag(Other(0))];
    states, steps := RunOn(states, steps, CloseSignal(Other(0)));
    states, steps := RunOn(states, steps, WriterSeesStop);
    states, steps := RunOn(states, steps, WriterNotify);
    states, steps := RunOn(states, steps, StoreReason(Other(0)));
    states, steps := RunOn(states, steps, WriterClose);
  }

  lemma RunOn(states: seq<State>, steps: seq<Step>, e: Step) returns (more: seq<State>, run: seq<Step>)
    requires IsRun(states, steps) && Enabled(states[|steps|], e)
    ensures IsRun(more, run) && run == steps + [e] && more == states + [Apply(states[|steps|], e)]
  {
    more, run := states + [Apply(states[|steps|], e)], steps + [e];
  }

  lemma StopCalled(reason: nat) returns (states: seq<State>)
    ensures |states| == 3 && states[0] == Initial(0, 1)
    ensures Enabled(states[0], CallStop(0, reason)) && states[1] == Apply(states[0], CallStop(0, reason))
    ensures Enabled(states[1], RaiseFlag(Other(0))) && states[2] == Apply(states[1], RaiseFlag(Other(0)))
    ensures states[2] == Initial(0, 0).(flag := true, stops := map[Other(0) := AtClose(reason)])
  {
    var s0 := Initial(0, 1);
    var s1 := Apply(s0, CallStop(0, reason));
    var s2 := Apply(s1, RaiseFlag(Other(0)));
    assert s2.stops == map[Other(0) := AtClose(reason)];
    states := [s0, s1, s2];
  }
}
