/** Registration of after-load hooks: a list kept sorted by priority through binary search. */
module LoadHooks {

  datatype Hook = Hook(table: string, priority: int)

  ghost predicate Sorted(hooks: seq<Hook>) {
    forall i, j | 0 <= i < j < |hooks| :: hooks[i].priority <= hooks[j].priority
  }

  /** The hooks of one priority, in list order. */
  function WithPriority(hooks: seq<Hook>, p: int): seq<Hook> {
    if hooks == [] then []
    else WithPriority(hooks[..|hooks| - 1], p) +
         (if hooks[|hooks| - 1].priority == p then [hooks[|hooks| - 1]] else [])
  }

  /** `sorted` is the stable sort of `registered`: sorted, and each priority's hooks are those
      registered, in registration order. */
  ghost predicate IsStableSort(sorted: seq<Hook>, registered: seq<Hook>) {
    && Sorted(sorted)
    && multiset(sorted) == multiset(registered)
    && forall p :: WithPriority(sorted, p) == WithPriority(registered, p)
  }

  predicate Distinct(hooks: seq<Hook>) {
    forall i, j | 0 <= i < j < |hooks| :: hooks[i].table != hooks[j].table
  }

  lemma {:induction false} WithPriorityConcat(a: seq<Hook>, b: seq<Hook>, p: int)
    ensures WithPriority(a + b, p) == WithPriority(a, p) + WithPriority(b, p)
    decreases |b|
  {
    if b == [] {
      assert a + b == a;
    } else {
      assert (a + b)[..|a + b| - 1] == a + b[..|b| - 1];
      WithPriorityConcat(a, b[..|b| - 1], p);
    }
  }

  lemma {:induction false} NoneWithPriority(hooks: seq<Hook>, p: int)
    requires forall i | 0 <= i < |hooks| :: hooks[i].priority != p
    ensures WithPriority(hooks, p) == []
  {
    if hooks != [] {
      NoneWithPriority(hooks[..|hooks| - 1], p);
    }
  }

  lemma InsertedWithPriority(before: seq<Hook>, after: seq<Hook>, registered: seq<Hook>, h: Hook, p: int)
    requires WithPriority(before + after, p) == WithPriority(registered, p)
    requires forall i | 0 <= i < |after| :: after[i].priority > h.priority
    ensures WithPriority(before + [h] + after, p) == WithPriority(registered + [h], p)
  {
    WithPriorityConcat(before, after, p);
    WithPriorityConcat(before + [h], after, p);
    WithPriorityConcat(before, [h], p);
    WithPriorityConcat(registered, [h], p);
    var x, y, z := WithPriority(before, p), WithPriority([h], p), WithPriority(after, p);
    assert WithPriority(before + [h] + after, p) == x + y + z;
    assert WithPriority(registered + [h], p) == x + z + y;
    assert x + y + z == x + z + y by {
      if p == h.priority {
        NoneWithPriority(after, p);
        assert z == [];
      } else {
        NoneWithPriority([h], p);
        assert y == [];
      }
    }
  }

  /** Inserting a new hook behind the last one of its priority is what a stable sort does. */
  lemma InsertKeepsStableSort(sorted: seq<Hook>, registered: seq<Hook>, pos: nat, h: Hook)
    requires IsStableSort(sorted, registered) && pos <= |sorted|
    requires forall i | 0 <= i < pos :: sorted[i].priority <= h.priority
    requires forall i | pos <= i < |sorted| :: sorted[i].priority > h.priority
    ensures IsStableSort(sorted[..pos] + [h] + sorted[pos..], registered + [h])
  {
    var before, after := sorted[..pos], sorted[pos..];
    assert sorted == before + after;
    assert Sorted(before + [h] + after);
    assert multiset(before + [h] + after) == multiset(before + after) + multiset{h};
    forall p ensures WithPriority(before + [h] + after, p) == WithPriority(registered + [h], p) {
      InsertedWithPriority(before, after, registered, h, p);
    }
  }

  lemma LastOccurs(a: seq<Hook>)
    requires a != []
    ensures WithPriority(a, a[|a| - 1].priority) != []
  {
  }

  ghost predicate SamePerPriority(a: seq<Hook>, b: seq<Hook>) {
    forall p :: WithPriority(a, p) == WithPriority(b, p)
  }

  lemma SameLast(a: seq<Hook>, b: seq<Hook>)
    requires a != [] && b != [] && Sorted(a) && Sorted(b) && SamePerPriority(a, b)
    ensures a[|a| - 1] == b[|b| - 1]
  {
    var x, y := a[|a| - 1], b[|b| - 1];
    SomeWithPriority(a, b, x.priority);
    SomeWithPriority(b, a, y.priority);
    assert WithPriority(a, x.priority)[|WithPriority(a, x.priority)| - 1] == x;
    assert WithPriority(b, x.priority)[|WithPriority(b, x.priority)| - 1] == y;
  }

  lemma SameFront(a: seq<Hook>, b: seq<Hook>)
    requires a != [] && b != [] && a[|a| - 1] == b[|b| - 1] && SamePerPriority(a, b)
    ensures SamePerPriority(a[..|a| - 1], b[..|b| - 1])
  {
    var a', b', x := a[..|a| - 1], b[..|b| - 1], a[|a| - 1];
    forall p ensures WithPriority(a', p) == WithPriority(b', p) {
      var last := if p == x.priority then [x] else [];
      assert WithPriority(a, p) == WithPriority(a', p) + last;
      assert WithPriority(b, p) == WithPriority(b', p) + last;
      assert WithPriority(a, p) == WithPriority(b, p);
      assert WithPriority(a', p) == (WithPriority(a', p) + last)[..|WithPriority(a, p)| - |last|];
    }
  }

  /** There is only one stable sort. */
  lemma {:induction false} StableSortUnique(a: seq<Hook>, b: seq<Hook>)
    requires Sorted(a) && Sorted(b) && SamePerPriority(a, b)
    ensures a == b
    decreases |a|
  {
    if a == [] {
      if b != [] {
        LastOccurs(b);
      }
    } else if b == [] {
      LastOccurs(a);
    } else {
      SameLast(a, b);
      SameFront(a, b);
      StableSortUnique(a[..|a| - 1], b[..|b| - 1]);
    }
  }

  /** The last priority of one list occurs in the other, so it is not above the other's last. */
  lemma SomeWithPriority(a: seq<Hook>, b: seq<Hook>, p: int)
    requires a != [] && p == a[|a| - 1].priority && Sorted(b) && WithPriority(a, p) == WithPriority(b, p)
    ensures b != [] && p <= b[|b| - 1].priority
  {
    if forall i | 0 <= i < |b| :: b[i].priority != p {
      NoneWithPriority(b, p);
    }
  }

  class HookRegistry {
    var afterLoadFuncs: seq<Hook>
    var afterLoadFuncMap: map<string, Hook>
    ghost var registered: seq<Hook>

    ghost predicate Valid()
      reads this
    {
      && IsStableSort(afterLoadFuncs, registered)
      && Distinct(registered)
      && (forall i | 0 <= i < |registered| ::
            registered[i].table in afterLoadFuncMap && afterLoadFuncMap[registered[i].table] == registered[i])
      && (forall t | t in afterLoadFuncMap :: afterLoadFuncMap[t].table == t && afterLoadFuncMap[t] in registered)
    }

    constructor ()
      ensures Valid() && registered == [] && afterLoadFuncs == []
    {
      afterLoadFuncs, afterLoadFuncMap, registered := [], map[], [];
    }

    /** The first position whose hook has a greater priority, by binary search. */
    method Search(priority: int) returns (pos: nat)
      requires Sorted(afterLoadFuncs)
      ensures pos <= |afterLoadFuncs|
      ensures forall i | 0 <= i < pos :: afterLoadFuncs[i].priority <= priority
      ensures forall i | pos <= i < |afterLoadFuncs| :: afterLoadFuncs[i].priority > priority
    {
      var i, j := 0, |afterLoadFuncs|;
      while i < j
        invariant 0 <= i <= j <= |afterLoadFuncs|
        invariant forall k | 0 <= k < i :: afterLoadFuncs[k].priority <= priority
        invariant forall k | j <= k < |afterLoadFuncs| :: afterLoadFuncs[k].priority > priority
      {
        var h := (i + j) / 2;
        if afterLoadFuncs[h].priority > priority {
          j := h;
        } else {
          i := h + 1;
        }
      }
      return i;
    }

    /** A second hook for one table is refused; otherwise the list becomes the stable sort of
        everything registered so far. */
    method RegisterAfterLoadFunc(table: string, priority: int) returns (accepted: bool)
      requires Valid()
      modifies this
      ensures Valid()
      ensures accepted == (table !in old(afterLoadFuncMap))
      ensures registered == if accepted then old(registered) + [Hook(table, priority)] else old(registered)
    {
      if table in afterLoadFuncMap {
        return false;
      }
      var info := Hook(table, priority);
      afterLoadFuncMap := afterLoadFuncMap[table := info];
      var pos := Search(priority);
      InsertKeepsStableSort(afterLoadFuncs, registered, pos, info);
      afterLoadFuncs := afterLoadFuncs[..pos] + [info] + afterLoadFuncs[pos..];
      registered := registered + [info];
      return true;
    }
  }

  /** The order in which hooks run is a function of the registrations alone, whatever else
      happened in between. */
  lemma RunOrderIsDetermined(a: seq<Hook>, b: seq<Hook>, registered: seq<Hook>)
    requires IsStableSort(a, registered) && IsStableSort(b, registered)
    ensures a == b
  {
    forall p ensures WithPriority(a, p) == WithPriority(b, p) {
      assert WithPriority(a, p) == WithPriority(registered, p);
    }
    StableSortUnique(a, b);
  }
}
