/** The agent's view of the game nodes: full synchronisation and batched change events, kept as
    a set of node ids per group. */
module NodeRouting {
  import opened GroupNames
  import opened Options

  type Group = string
  type NodeId = string

  datatype Node = Node(category: string, serverId: int, id: NodeId)

  datatype EventType = Add | Del | Other

  datatype NodeEvent = NodeEvent(kind: EventType, node: Option<Node>)

  datatype UpdateOp = UpdateAdd(ids: seq<NodeId>) | UpdateRemove(ids: seq<NodeId>)

  predicate AcceptNode(node: Option<Node>) {
    node.Some? && node.value.category == NODE_GAME
  }

  function GroupOf(node: Node): Group {
    MakeGroup(node.category, node.serverId)
  }

  // ----- membership and its meaning -----

  function Members(groups: map<Group, set<NodeId>>, g: Group): set<NodeId> {
    if g in groups then groups[g] else {}
  }

  /** What one event does to the members of a group. */
  function ReplayOne(members: set<NodeId>, g: Group, ev: NodeEvent): set<NodeId> {
    if !AcceptNode(ev.node) || GroupOf(ev.node.value) != g then members
    else match ev.kind
      case Add => members + {ev.node.value.id}
      case Del => members - {ev.node.value.id}
      case Other => members
  }

  /** One event after the other. */
  function Replay(members: set<NodeId>, g: Group, events: seq<NodeEvent>): set<NodeId> {
    if events == [] then members
    else ReplayOne(Replay(members, g, events[..|events| - 1]), g, events[|events| - 1])
  }

  lemma ReplayNext(members: set<NodeId>, g: Group, events: seq<NodeEvent>, i: nat)
    requires i < |events|
    ensures Replay(members, g, events[..i + 1]) == ReplayOne(Replay(members, g, events[..i]), g, events[i])
  {
    assert events[..i + 1][..i] == events[..i];
  }

  function ApplyOp(members: set<NodeId>, op: UpdateOp): set<NodeId> {
    match op
    case UpdateAdd(ids) => members + set id | id in ids
    case UpdateRemove(ids) => members - set id | id in ids
  }

  function ApplyOps(members: set<NodeId>, ops: seq<UpdateOp>): set<NodeId> {
    if ops == [] then members else ApplyOp(ApplyOps(members, ops[..|ops| - 1]), ops[|ops| - 1])
  }

  function Ops(updates: map<Group, seq<UpdateOp>>, g: Group): seq<UpdateOp> {
    if g in updates then updates[g] else []
  }

  /** The base selector, as far as membership goes: it keeps a set of ids per group. */
  class Selector {
    var groups: map<Group, set<NodeId>>

    constructor ()
      ensures groups == map[]
    {
      groups := map[];
    }

    method Set(lists: map<Group, seq<NodeId>>, all: bool)
      modifies this
      ensures forall g :: Members(groups, g) ==
                (if g in lists then (set id | id in lists[g]) else if all then {} else Members(old(groups), g))
    {
      var replaced := map g | g in lists :: set id | id in lists[g];
      groups := if all then replaced else groups + replaced;
    }

    /** Applies each group's operations in order; the groups come in no particular order. */
    method Update(updates: map<Group, seq<UpdateOp>>)
      modifies this
      ensures forall g :: Members(groups, g) == ApplyOps(Members(old(groups), g), Ops(updates, g))
    {
      var todo := updates.Keys;
      while todo != {}
        invariant todo <= updates.Keys
        invariant forall g :: Members(groups, g) ==
                    if g in todo then Members(old(groups), g) else ApplyOps(Members(old(groups), g), Ops(updates, g))
        decreases |todo|
      {
        var g :| g in todo;
        groups := groups[g := ApplyOps(Members(groups, g), updates[g])];
        todo := todo - {g};
      }
    }
  }

  class NodeSelector {
    const base: Selector

    constructor (base: Selector)
      ensures this.base == base
    {
      this.base := base;
    }

    /** Replaces the listed groups (or all groups) by the accepted nodes of the list. */
    method SetNodes(nodes: seq<Option<Node>>, all: bool)
      modifies base
      ensures all ==> forall g :: Members(base.groups, g) == Listed(nodes, g)
      ensures !all ==> forall g ::
                Members(base.groups, g)
                == (if Listed(nodes, g) != {} then Listed(nodes, g) else Members(old(base.groups), g))
    {
      var groups: map<Group, seq<NodeId>> := map[];
      for i := 0 to |nodes|
        invariant base.groups == old(base.groups)
        invariant forall g :: Listed(nodes[..i], g) == if g in groups then (set id | id in groups[g]) else {}
        invariant forall g | g in groups :: groups[g] != []
      {
        var n := nodes[i];
        ListedAppend(nodes, i);
        if !AcceptNode(n) {
          continue;
        }
        var g := GroupOf(n.value);
        groups := groups[g := (if g in groups then groups[g] else []) + [n.value.id]];
      }
      assert nodes[..|nodes|] == nodes;
      forall g | g in groups ensures Listed(nodes, g) != {} {
        var first := groups[g][0];
        assert first in groups[g] && first in Listed(nodes, g);
      }
      base.Set(groups, all);
    }

    /** Collects the accepted events of a batch into one list of operations per group and applies
        the lists: the result is as if the events had been applied one at a time. */
    method UpdateEvents(events: seq<NodeEvent>)
      modifies base
      ensures forall g :: Members(base.groups, g) == Replay(Members(old(base.groups), g), g, events)
    {
      var updates: map<Group, seq<UpdateOp>> := map[];
      for i := 0 to |events|
        invariant base.groups == old(base.groups)
        invariant forall g :: ApplyOps(Members(base.groups, g), Ops(updates, g))
                              == Replay(Members(base.groups, g), g, events[..i])
      {
        var ev := events[i];
        BatchStep(base.groups, updates, events, i);
        if !AcceptNode(ev.node) {
          continue;
        }
        var g, id := GroupOf(ev.node.value), ev.node.value.id;
        match ev.kind
        case Add => updates := Append(updates, g, UpdateAdd([id]));
        case Del => updates := Append(updates, g, UpdateRemove([id]));
        case Other =>
      }
      assert events[..|events|] == events;
      if |updates| > 0 {
        base.Update(updates);
      }
    }
  }

  function Append(updates: map<Group, seq<UpdateOp>>, g: Group, op: UpdateOp): map<Group, seq<UpdateOp>> {
    updates[g := Ops(updates, g) + [op]]
  }

  /** The batch after one more event. */
  function Batched(updates: map<Group, seq<UpdateOp>>, ev: NodeEvent): map<Group, seq<UpdateOp>> {
    if !AcceptNode(ev.node) then updates
    else match ev.kind
      case Add => Append(updates, GroupOf(ev.node.value), UpdateAdd([ev.node.value.id]))
      case Del => Append(updates, GroupOf(ev.node.value), UpdateRemove([ev.node.value.id]))
      case Other => updates
  }

  lemma BatchStepInGroup(members: set<NodeId>, updates: map<Group, seq<UpdateOp>>,
                         events: seq<NodeEvent>, i: nat, g: Group)
    requires i < |events| && ApplyOps(members, Ops(updates, g)) == Replay(members, g, events[..i])
    ensures ApplyOps(members, Ops(Batched(updates, events[i]), g)) == Replay(members, g, events[..i + 1])
  {
    ReplayNext(members, g, events, i);
    BatchedOne(members, updates, events[i], g);
  }

  lemma BatchedOne(members: set<NodeId>, updates: map<Group, seq<UpdateOp>>, ev: NodeEvent, g: Group)
    ensures ApplyOps(members, Ops(Batched(updates, ev), g)) == ReplayOne(ApplyOps(members, Ops(updates, g)), g, ev)
  {
    var ops, batched := Ops(updates, g), Batched(updates, ev);
    if AcceptNode(ev.node) && GroupOf(ev.node.value) == g && !ev.kind.Other? {
      var id := ev.node.value.id;
      var op := if ev.kind.Add? then UpdateAdd([id]) else UpdateRemove([id]);
      assert Ops(batched, g) == ops + [op];
      AppendOp(members, ops, op);
      assert (set i | i in [id]) == {id};
    } else {
      assert Ops(batched, g) == ops;
    }
  }

  /** Putting an event into the batch does to every group what the event does. */
  lemma BatchStep(groups: map<Group, set<NodeId>>, updates: map<Group, seq<UpdateOp>>, events: seq<NodeEvent>, i: nat)
    requires i < |events|
    requires forall g :: ApplyOps(Members(groups, g), Ops(updates, g)) == Replay(Members(groups, g), g, events[..i])
    ensures forall g :: ApplyOps(Members(groups, g), Ops(Batched(updates, events[i]), g))
                        == Replay(Members(groups, g), g, events[..i + 1])
  {
    forall g
      ensures ApplyOps(Members(groups, g), Ops(Batched(updates, events[i]), g))
              == Replay(Members(groups, g), g, events[..i + 1])
    {
      assert ApplyOps(Members(groups, g), Ops(updates, g)) == Replay(Members(groups, g), g, events[..i]);
      BatchStepInGroup(Members(groups, g), updates, events, i, g);
    }
  }

  lemma AppendOp(members: set<NodeId>, ops: seq<UpdateOp>, op: UpdateOp)
    ensures ApplyOps(members, ops + [op]) == ApplyOp(ApplyOps(members, ops), op)
  {
    assert (ops + [op])[..|ops|] == ops;
  }

  /** The ids of the accepted nodes of a list that belong to a group. */
  function Listed(nodes: seq<Option<Node>>, g: Group): set<NodeId> {
    set n | n in nodes && AcceptNode(n) && GroupOf(n.value) == g :: n.value.id
  }

  lemma ListedAppend(nodes: seq<Option<Node>>, i: nat)
    requires i < |nodes|
    ensures forall g :: Listed(nodes[..i + 1], g) == Listed(nodes[..i], g) +
              (if AcceptNode(nodes[i]) && GroupOf(nodes[i].value) == g then {nodes[i].value.id} else {})
  {
    assert nodes[..i + 1] == nodes[..i] + [nodes[i]];
  }

  // ----- full synchronisation against replay -----

  /** The nodes an event log leaves alive, by id. */
  function Alive(events: seq<NodeEvent>): map<NodeId, Node> {
    if events == [] then map[] else AliveOne(Alive(events[..|events| - 1]), events[|events| - 1])
  }

  function AliveOne(alive: map<NodeId, Node>, ev: NodeEvent): map<NodeId, Node> {
    if !AcceptNode(ev.node) then alive
    else match ev.kind
      case Add => alive[ev.node.value.id := ev.node.value]
      case Del => alive - {ev.node.value.id}
      case Other => alive
  }

  function InGroup(alive: map<NodeId, Node>, g: Group): set<NodeId> {
    set id | id in alive && GroupOf(alive[id]) == g
  }

  /** The ids of the nodes alive in a group. */
  function AliveIn(events: seq<NodeEvent>, g: Group): set<NodeId> {
    InGroup(Alive(events), g)
  }

  ghost predicate ReplayIsAlive(events: seq<NodeEvent>) {
    forall g :: Replay({}, g, events) == AliveIn(events, g)
  }

  /** An event about a node that is alive comes from the server the node is alive on. */
  predicate FromItsServer(events: seq<NodeEvent>, ev: NodeEvent) {
    AcceptNode(ev.node) && !ev.kind.Other? && ev.node.value.id in Alive(events) ==>
      Alive(events)[ev.node.value.id].serverId == ev.node.value.serverId
  }

  ghost predicate MovesCleanly(events: seq<NodeEvent>) {
    forall i | 0 <= i < |events| :: FromItsServer(events[..i], events[i])
  }

  lemma {:induction false} AliveAccepted(events: seq<NodeEvent>)
    ensures forall id | id in Alive(events) ::
              Alive(events)[id].category == NODE_GAME && Alive(events)[id].id == id
    ensures forall id | id in Alive(events) ::
              exists ev :: ev in events && AcceptNode(ev.node) && ev.node.value == Alive(events)[id]
  {
    if events != [] {
      var before, last := events[..|events| - 1], events[|events| - 1];
      AliveAccepted(before);
      forall id | id in Alive(events)
        ensures exists ev :: ev in events && AcceptNode(ev.node) && ev.node.value == Alive(events)[id]
      {
        if id in Alive(before) && Alive(before)[id] == Alive(events)[id] {
          var ev :| ev in before && AcceptNode(ev.node) && ev.node.value == Alive(before)[id];
          assert ev in events;
        } else {
          assert last in events;
        }
      }
    }
  }

  lemma OneEventFromItsServer(alive: map<NodeId, Node>, ev: NodeEvent, g: Group)
    requires forall id | id in alive :: alive[id].category == NODE_GAME
    requires AcceptNode(ev.node) && !ev.kind.Other? && ev.node.value.id in alive ==>
               alive[ev.node.value.id].serverId == ev.node.value.serverId
    ensures ReplayOne(InGroup(alive, g), g, ev) == InGroup(AliveOne(alive, ev), g)
  {
  }

  lemma OneEventFromElsewhere(alive: map<NodeId, Node>, ev: NodeEvent)
    requires AcceptNode(ev.node) && !ev.kind.Other? && ev.node.value.id in alive
    requires alive[ev.node.value.id].category == NODE_GAME
    requires alive[ev.node.value.id].serverId != ev.node.value.serverId
    ensures var g := GroupOf(alive[ev.node.value.id]);
            ReplayOne(InGroup(alive, g), g, ev) != InGroup(AliveOne(alive, ev), g)
  {
    var was := alive[ev.node.value.id];
    GroupsInjective(was.serverId, ev.node.value.serverId, NODE_GAME);
    assert ev.node.value.id in InGroup(alive, GroupOf(was));
  }

  /** One more event keeps replay and the living nodes in step exactly when it comes from the
      node's own server. */
  lemma ReplayStepIff(events: seq<NodeEvent>, ev: NodeEvent)
    requires ReplayIsAlive(events)
    ensures ReplayIsAlive(events + [ev]) <==> FromItsServer(events, ev)
  {
    var all := events + [ev];
    assert all[..|all| - 1] == events && all[|all| - 1] == ev;
    AliveAccepted(events);
    if FromItsServer(events, ev) {
      forall g ensures Replay({}, g, all) == AliveIn(all, g) {
        assert Replay({}, g, events) == AliveIn(events, g);
        OneEventFromItsServer(Alive(events), ev, g);
      }
    } else {
      OneEventFromElsewhere(Alive(events), ev);
      var g := GroupOf(Alive(events)[ev.node.value.id]);
      assert Replay({}, g, events) == AliveIn(events, g);
      assert Replay({}, g, all) != AliveIn(all, g);
    }
  }

  /** Replaying a log gives every group its living nodes, at every moment of the log, exactly when
      every event about a living node comes from the server it is alive on. */
  lemma {:induction false} ReplayIsAliveIff(events: seq<NodeEvent>)
    ensures (forall i | 0 <= i <= |events| :: ReplayIsAlive(events[..i])) <==> MovesCleanly(events)
    decreases |events|
  {
    assert events[..|events|] == events;
    if events != [] {
      var m := |events| - 1;
      var before, last := events[..m], events[m];
      assert events == before + [last];
      assert forall i | 0 <= i <= m :: before[..i] == events[..i];
      assert forall i | 0 <= i < m :: before[i] == events[i];
      ReplayIsAliveIff(before);
      if MovesCleanly(events) || forall i | 0 <= i <= |events| :: ReplayIsAlive(events[..i]) {
        assert MovesCleanly(before);
        assert ReplayIsAlive(before[..m]);
        ReplayStepIff(before, last);
      }
      if MovesCleanly(events) {
        assert FromItsServer(events[..m], events[m]);
      }
    }
  }

  /** The list names exactly the nodes the log leaves alive. */
  ghost predicate ListsAlive(nodes: seq<Option<Node>>, events: seq<NodeEvent>) {
    forall n: Node :: AcceptNode(Some(n)) ==> (Some(n) in nodes <==> n.id in Alive(events) && Alive(events)[n.id] == n)
  }

  lemma ListedIsAlive(nodes: seq<Option<Node>>, events: seq<NodeEvent>, g: Group)
    requires ListsAlive(nodes, events)
    ensures Listed(nodes, g) == AliveIn(events, g)
  {
    AliveAccepted(events);
    forall id | id in AliveIn(events, g) ensures id in Listed(nodes, g) {
      assert AcceptNode(Some(Alive(events)[id])) && Some(Alive(events)[id]) in nodes;
    }
    forall id | id in Listed(nodes, g) ensures id in AliveIn(events, g) {
      var n :| n in nodes && AcceptNode(n) && GroupOf(n.value) == g && n.value.id == id;
      assert n == Some(n.value);
    }
  }

  /** How node ids are made from category and name: different names give different ids. */
  ghost predicate Distinguishes(makeNodeId: (string, string) -> NodeId) {
    forall c, m, n :: makeNodeId(c, m) == makeNodeId(c, n) ==> m == n
  }

  /** The node is one that a server makes for itself: named after the server. */
  predicate IsServerNode(node: Node, makeNodeId: (string, string) -> NodeId) {
    node.id == makeNodeId(node.category, MakeServerNodeName(node.serverId))
  }

  /** Nodes that servers make for themselves never change servers. */
  lemma ServerNodesMoveCleanly(events: seq<NodeEvent>, makeNodeId: (string, string) -> NodeId)
    requires Distinguishes(makeNodeId)
    requires forall ev | ev in events && AcceptNode(ev.node) :: IsServerNode(ev.node.value, makeNodeId)
    ensures MovesCleanly(events)
  {
    forall i | 0 <= i < |events| ensures FromItsServer(events[..i], events[i]) {
      var ev := events[i];
      if AcceptNode(ev.node) && ev.node.value.id in Alive(events[..i]) {
        var n := Alive(events[..i])[ev.node.value.id];
        AliveAccepted(events[..i]);
        assert ev in events && IsServerNode(n, makeNodeId) && IsServerNode(ev.node.value, makeNodeId);
        NodeNamesInjective(n.serverId, ev.node.value.serverId);
      }
    }
  }

  /** A full synchronisation agrees with replaying any log that moves cleanly and leaves the listed
      nodes alive. */
  lemma SyncAgreesWithReplay(nodes: seq<Option<Node>>, events: seq<NodeEvent>, g: Group)
    requires MovesCleanly(events) && ListsAlive(nodes, events)
    ensures Listed(nodes, g) == Replay({}, g, events)
  {
    ReplayIsAliveIff(events);
    assert events[..|events|] == events;
    assert ReplayIsAlive(events[..|events|]);
    ListedIsAlive(nodes, events, g);
  }

  /** In particular any log of nodes that servers make for themselves. */
  lemma SyncAgreesForServerNodes(nodes: seq<Option<Node>>, events: seq<NodeEvent>,
                                 makeNodeId: (string, string) -> NodeId, g: Group)
    requires Distinguishes(makeNodeId) && ListsAlive(nodes, events)
    requires forall ev | ev in events && AcceptNode(ev.node) :: IsServerNode(ev.node.value, makeNodeId)
    ensures Listed(nodes, g) == Replay({}, g, events)
  {
    ServerNodesMoveCleanly(events, makeNodeId);
    SyncAgreesWithReplay(nodes, events, g);
  }

  /** A node that is not named after its server and moves to another one without a removal is left
      behind by replay, in the group of its old server, where a synchronisation does not put it. */
  lemma MovedNodeIsLeftBehind(id: NodeId, a: int, b: int)
    requires a != b
    ensures var x, y := Node(NODE_GAME, a, id), Node(NODE_GAME, b, id);
            var events := [NodeEvent(Add, Some(x)), NodeEvent(Add, Some(y))];
            && ListsAlive([Some(y)], events)
            && id in Replay({}, GroupOf(x), events) && id !in Listed([Some(y)], GroupOf(x))
  {
    var x, y := Node(NODE_GAME, a, id), Node(NODE_GAME, b, id);
    var events := [NodeEvent(Add, Some(x)), NodeEvent(Add, Some(y))];
    GroupsInjective(a, b, NODE_GAME);
    assert events[..1] == [NodeEvent(Add, Some(x))];
    assert events[..1][..0] == [];
    assert Alive(events[..1]) == map[id := x];
    assert Alive(events) == map[id := y];
    assert Replay({}, GroupOf(x), events[..1]) == {id};
  }
}
