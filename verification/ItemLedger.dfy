/** A player's items: signed 64-bit counts per item id. */
module ItemLedger {
  import opened Options

  const MAX_INT64: int := 0x7FFF_FFFF_FFFF_FFFF
  const TWO_64: int := 0x1_0000_0000_0000_0000

  type int64 = x: int | -MAX_INT64 - 1 <= x <= MAX_INT64
  type int32 = x: int | -0x8000_0000 <= x <= 0x7FFF_FFFF

  datatype Item = Item(id: int32, num: int64)

  type Items = map<int32, Item>

  /** 64-bit two's complement wrap-around. */
  function Wrap(x: int): int64 {
    (x + MAX_INT64 + 1) % TWO_64 - MAX_INT64 - 1
  }

  function Count(items: Items, id: int32): int64 {
    if id in items then items[id].num else 0
  }

  /** Every entry has a nonzero key that is also its id, and a positive count. */
  ghost predicate WellFormed(items: Items) {
    forall id | id in items :: id != 0 && items[id].id == id && items[id].num > 0
  }

  // ----- what the operations do to the counts -----

  datatype Op = Add(id: int32, num: int64) | Sub(id: int32, num: int64)

  predicate Overflows(items: Items, op: Op) {
    op.Add? && op.id != 0 && op.num > 0 && Count(items, op.id) + op.num > MAX_INT64
  }

  predicate Covered(items: Items, op: Op) {
    op.Sub? && op.id != 0 && 0 < op.num <= Count(items, op.id)
  }

  /** The change of an id's count that an operation should make. */
  function Delta(items: Items, op: Op, id: int32): int {
    if op.id != id || id == 0 || op.num <= 0 then 0
    else match op
      case Add(_, num) => num
      case Sub(_, num) => if Covered(items, op) then -num else 0
  }

  /** The count of an id after an operation: an overflowing addition leaves nothing. */
  function CountAfter(items: Items, op: Op, id: int32): int {
    if op.id == id && Overflows(items, op) then 0 else Count(items, id) + Delta(items, op, id)
  }

  /** The ledger in place. */
  class Ledger {
    var items: Items

    constructor OnInit()
      ensures items == map[]
    {
      items := map[];
    }

    method GetNum(id: int32) returns (num: int64)
      requires WellFormed(items)
      ensures num == Count(items, id) && num == if id in items then items[id].num else 0
    {
      if id == 0 {
        return 0;
      }
      if id in items {
        return items[id].num;
      }
      return 0;
    }

    method GetItem(id: int32) returns (item: Option<Item>)
      requires WellFormed(items)
      ensures item == if id in items then Some(items[id]) else None
      ensures item.None? <==> Count(items, id) == 0
    {
      if id == 0 || id !in items {
        return None;
      }
      return Some(items[id]);
    }

    method Add(id: int32, num: int64) returns (after: int64)
      requires WellFormed(items)
      modifies this
      ensures WellFormed(items)
      ensures forall i :: Count(items, i) == CountAfter(old(items), Op.Add(id, num), i)
      ensures after == Count(items, id)
      ensures Overflows(old(items), Op.Add(id, num)) <==> id !in items && id != 0 && num > 0
      ensures var was: int := if id in old(items) then old(items)[id].num else 0;
              if id == 0 || num <= 0 then items == old(items)
              else if was + num <= 0x7FFF_FFFF_FFFF_FFFF then items == old(items)[id := Item(id, was + num)]
              else items == old(items) - {id}
    {
      if id == 0 || num <= 0 {
        after := GetNum(id);
        return;
      }
      if id !in items {
        items := items[id := Item(id, 0)];
      }
      var sum := Wrap(items[id].num + num);
      items := items[id := items[id].(num := sum)];
      if sum <= 0 {
        items := items - {id};
        return 0;
      }
      return sum;
    }

    method Sub(id: int32, num: int64) returns (after: int64, ok: bool)
      requires WellFormed(items)
      modifies this
      ensures WellFormed(items)
      ensures forall i :: Count(items, i) == CountAfter(old(items), Op.Sub(id, num), i)
      ensures after == Count(items, id)
      ensures ok <==> id != 0 && (num <= 0 || (id in old(items) && num <= old(items)[id].num))
      ensures if !ok || num <= 0 then items == old(items)
              else if num < old(items)[id].num then items == old(items)[id := Item(id, old(items)[id].num - num)]
              else items == old(items) - {id}
    {
      if id == 0 {
        return 0, false;
      }
      if num <= 0 {
        after := GetNum(id);
        return after, true;
      }
      if id !in items || items[id].num < num {
        if id !in items {
          return 0, false;
        }
        return items[id].num, false;
      }
      var rest := Wrap(items[id].num - num);
      items := items[id := items[id].(num := rest)];
      if rest == 0 {
        items := items - {id};
        return 0, true;
      }
      return rest, true;
    }
  }

  // ----- whole histories -----

  /** States of a ledger along a sequence of operations, by their counts. */
  ghost predicate IsHistory(states: seq<Items>, ops: seq<Op>) {
    && |states| == |ops| + 1 && states[0] == map[]
    && (forall n | 0 <= n <= |ops| :: WellFormed(states[n]))
    && (forall n, id | 0 <= n < |ops| :: Count(states[n + 1], id) == CountAfter(states[n], ops[n], id))
  }

  /** Accepted additions minus successful subtractions, in unbounded arithmetic. */
  ghost function Net(states: seq<Items>, ops: seq<Op>, id: int32): int
    requires |states| == |ops| + 1
    decreases |ops|
  {
    if ops == [] then 0
    else
      var m := |ops| - 1;
      Net(states[..m + 1], ops[..m], id) + Delta(states[m], ops[m], id)
  }

  /** What overflowing additions destroyed. */
  ghost function Destroyed(states: seq<Items>, ops: seq<Op>, id: int32): int
    requires |states| == |ops| + 1
    decreases |ops|
  {
    if ops == [] then 0
    else
      var m := |ops| - 1;
      Destroyed(states[..m + 1], ops[..m], id) +
      (if ops[m].id == id && Overflows(states[m], ops[m]) then Count(states[m], id) + ops[m].num else 0)
  }

  /** Conservation: what an id holds plus what overflows destroyed is what was put in minus what
      was taken out. */
  lemma {:induction false} Conservation(states: seq<Items>, ops: seq<Op>, id: int32)
    requires IsHistory(states, ops)
    ensures Count(states[|ops|], id) + Destroyed(states, ops, id) == Net(states, ops, id)
    ensures Destroyed(states, ops, id) >= 0
    ensures Destroyed(states, ops, id) == 0 <==>
              forall n | 0 <= n < |ops| :: !(ops[n].id == id && Overflows(states[n], ops[n]))
    decreases |ops|
  {
    if ops != [] {
      var m := |ops| - 1;
      Conservation(states[..m + 1], ops[..m], id);
      assert WellFormed(states[m]) && IsHistory(states[..m + 1], ops[..m]);
      assert Count(states[m + 1], id) == CountAfter(states[m], ops[m], id);
      assert forall n | 0 <= n < m :: ops[..m][n] == ops[n] && states[..m + 1][n] == states[n];
    }
  }

  /** The count is additions minus subtractions exactly when no addition of the id overflowed. */
  lemma CountIsNetIff(states: seq<Items>, ops: seq<Op>, id: int32)
    requires IsHistory(states, ops)
    ensures Count(states[|ops|], id) == Net(states, ops, id) <==>
              forall n | 0 <= n < |ops| :: !(ops[n].id == id && Overflows(states[n], ops[n]))
  {
    Conservation(states, ops, id);
  }
}
