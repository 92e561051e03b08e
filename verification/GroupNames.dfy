/** Names of node groups: the agent and the game server compute them separately and must agree. */
module GroupNames {
  import opened Options

  const NODE_GAME := "game"

  type Digit = c: char | '0' <= c <= '9' witness '0'

  function DigitOf(n: nat): Digit
    requires n < 10
  {
    '0' + n as char
  }

  function Unsigned(n: nat): seq<Digit> {
    if n < 10 then [DigitOf(n)] else Unsigned(n / 10) + [DigitOf(n % 10)]
  }

  /** Decimal printing of a signed integer. */
  function FormatInt(n: int): string {
    if n < 0 then "-" + Unsigned(-n) else Unsigned(n)
  }

  function ParseUnsigned(s: seq<Digit>): nat {
    if s == [] then 0 else 10 * ParseUnsigned(s[..|s| - 1]) + (s[|s| - 1] - '0') as nat
  }

  lemma {:induction false} UnsignedRoundTrip(n: nat)
    ensures Unsigned(n) != [] && ParseUnsigned(Unsigned(n)) == n
  {
    if n < 10 {
      assert ParseUnsigned([]) == 0;
      assert Unsigned(n)[..0] == [];
    } else {
      UnsignedRoundTrip(n / 10);
      assert Unsigned(n)[..|Unsigned(n)| - 1] == Unsigned(n / 10);
    }
  }

  /** Decimal printing loses nothing. */
  lemma FormatIntInjective(m: int, n: int)
    ensures FormatInt(m) == FormatInt(n) <==> m == n
  {
    if FormatInt(m) == FormatInt(n) {
      UnsignedRoundTrip(if m < 0 then -m else m);
      UnsignedRoundTrip(if n < 0 then -n else n);
      assert m < 0 <==> FormatInt(m)[0] == '-';
      assert n < 0 <==> FormatInt(n)[0] == '-';
      if m < 0 {
        assert FormatInt(m)[1..] == Unsigned(-m) && FormatInt(n)[1..] == Unsigned(-n);
      }
    }
  }

  /** The usual decimal notation, digit by digit. */
  lemma FormatIntIs(n: int)
    ensures n < 0 ==> FormatInt(n) == "-" + FormatInt(-n)
    ensures 0 <= n < 10 ==> FormatInt(n) == "0123456789"[n..n + 1]
    ensures n >= 10 ==> FormatInt(n) == FormatInt(n / 10) + FormatInt(n % 10)
  {
  }

  predicate AllDigits(s: string) {
    forall i | 0 <= i < |s| :: '0' <= s[i] <= '9'
  }

  /** What `FormatInt` prints, `ParseUnsigned` reads, after the sign. */
  lemma FormatIntParses(n: int)
    ensures n >= 0 ==> AllDigits(FormatInt(n)) && ParseUnsigned(FormatInt(n)) == n
    ensures n < 0 ==> FormatInt(n)[..1] == "-" && AllDigits(FormatInt(n)[1..]) && ParseUnsigned(FormatInt(n)[1..]) == -n
  {
    UnsignedRoundTrip(if n < 0 then -n else n);
    if n < 0 {
      assert FormatInt(n)[1..] == Unsigned(-n);
    }
  }

  /** The agent's group name: per server for game nodes, the category otherwise. */
  function MakeGroup(category: string, serverId: int): string {
    if category == NODE_GAME then NODE_GAME + "/" + FormatInt(serverId) else category
  }

  /** The game server's own version of the same rule. */
  function MakeNodeGroup(category: string, serverId: int): string {
    if category == NODE_GAME then NODE_GAME + "/" + FormatInt(serverId) else category
  }

  function MakeServerNodeName(serverId: int): string {
    FormatInt(serverId)
  }

  datatype Category = Server | Player | Unknown

  datatype ActorUid = ActorUid(category: Category, id: nat)

  /** The server an actor belongs to; the routing table may lack a player or hold a bad entry. */
  function GetActorServerID(uid: ActorUid, store: map<nat, int>): Option<int> {
    match uid.category
    case Server => Some(uid.id)
    case Player => if uid.id in store && store[uid.id] > 0 then Some(store[uid.id]) else None
    case Unknown => None
  }

  function GetActorNodeGroup(uid: ActorUid, store: map<nat, int>): Option<string> {
    match uid.category
    case Player =>
      (match GetActorServerID(uid, store)
       case Some(serverId) => Some(MakeNodeGroup(NODE_GAME, serverId))
       case None => None)
    case _ => None
  }

  /** Both sides name the group of a server's game nodes after the printed server id, and every other
      group after its category; a server's node is named after the printed id alone. */
  lemma GroupsPrintServers(serverId: int, category: string)
    ensures MakeGroup("game", serverId) == MakeNodeGroup("game", serverId) == "game/" + FormatInt(serverId)
    ensures category != "game" ==> MakeGroup(category, serverId) == MakeNodeGroup(category, serverId) == category
    ensures MakeServerNodeName(serverId) == FormatInt(serverId)
  {
  }

  /** Players alone are routed by group, and only with a positive server id in the routing table. */
  lemma OnlyPlayersHaveGroups(uid: ActorUid, store: map<nat, int>)
    ensures GetActorNodeGroup(uid, store).Some? <==>
            uid.category == Player && uid.id in store && store[uid.id] > 0
    ensures GetActorServerID(uid, store).Some? <==>
            uid.category == Server || (uid.category == Player && uid.id in store && store[uid.id] > 0)
    ensures uid.category == Server ==> GetActorServerID(uid, store) == Some(uid.id)
  {
  }

  /** Game groups of two servers are the same exactly when the servers are, and a game group is
      the name of no other category. */
  lemma GroupsInjective(a: int, b: int, category: string)
    ensures MakeGroup(NODE_GAME, a) == MakeGroup(NODE_GAME, b) <==> a == b
    ensures category != NODE_GAME && '/' !in category ==> MakeGroup(category, b) != MakeGroup(NODE_GAME, a)
  {
    var prefix := NODE_GAME + "/";
    assert MakeGroup(NODE_GAME, a)[|prefix|..] == FormatInt(a);
    assert MakeGroup(NODE_GAME, b)[|prefix|..] == FormatInt(b);
    FormatIntInjective(a, b);
    assert MakeGroup(NODE_GAME, a)[4] == '/';
  }

  /** Names of server nodes of one category are the same exactly when the servers are. */
  lemma NodeNamesInjective(a: int, b: int)
    ensures MakeServerNodeName(a) == MakeServerNodeName(b) <==> a == b
  {
    FormatIntInjective(a, b);
  }
}
