/** A character's agent and its game server look for it in the same group of nodes. */
module CharacterRouting {
  import C = CharacterCreation
  import opened GroupNames
  import opened Options

  /** The group in which the agent picks a game node: by the server of the stored character,
      which the login token carries. */
  function PickGroup(character: C.Character): string {
    MakeGroup(NODE_GAME, character.server)
  }

  /** For every id that character creation returned, the game router finds the group in which the
      agent picks, exactly when the character's server id is positive; otherwise it finds none. */
  lemma AgentAndGameAgree(states: seq<C.State>, steps: seq<C.Step>, r: C.RequestId, character: C.Character)
    requires C.IsRun(states, steps) && C.Init(states[0])
    requires var s := states[|steps|];
             && r in s.requests && s.requests[r].phase.Returned?
             && character in s.characters && character.id == s.requests[r].phase.id
    ensures var group := GetActorNodeGroup(ActorUid(Player, character.id), states[|steps|].actorServer);
            group == if character.server > 0 then Some(PickGroup(character)) else None
  {
    C.ReturnedIdsAreBound(states, steps);
  }

  /** Two returned characters are looked for in one group exactly when they live on one server. */
  lemma SameGroupIffSameServer(states: seq<C.State>, steps: seq<C.Step>,
                               r: C.RequestId, q: C.RequestId, c: C.Character, d: C.Character)
    requires C.IsRun(states, steps) && C.Init(states[0])
    requires var s := states[|steps|];
             && r in s.requests && s.requests[r].phase.Returned? && c in s.characters && c.id == s.requests[r].phase.id
             && q in s.requests && s.requests[q].phase.Returned? && d in s.characters && d.id == s.requests[q].phase.id
    requires c.server > 0 && d.server > 0
    ensures var store := states[|steps|].actorServer;
            GetActorNodeGroup(ActorUid(Player, c.id), store) == GetActorNodeGroup(ActorUid(Player, d.id), store)
            <==> c.server == d.server
  {
    AgentAndGameAgree(states, steps, r, c);
    AgentAndGameAgree(states, steps, q, d);
    GroupsInjective(c.server, d.server, NODE_GAME);
  }
}
