/** Loading of configuration tables: paged reads, indexes built from what was read, and hooks
    that rebuild derived indexes after a load. */
module ConfigTables {
  import opened Options

  const LOAD_BATCH_SIZE: nat := 1000
  const TABLE_GLOBAL := "Global"
  const TABLE_ITEM := "Item"

  datatype Item = Item(id: int, level: int, name: string)

  /** A configuration database: the item collection, the pages of it that cannot be read, and
      whether the global document can. */
  datatype Database = Database(items: seq<Item>, badPages: set<nat>, globalReadable: bool)

  datatype Table = Table(entries: seq<Item>, byId: map<int, Item>)

  datatype Store = Store(global: bool, item: Option<Table>, levels: Option<map<int, seq<Item>>>)

  // ----- indexes against linear scans -----

  /** The last entry with an id, by scanning. */
  function LastWithId(entries: seq<Item>, id: int): Option<Item> {
    if entries == [] then None
    else if entries[|entries| - 1].id == id then Some(entries[|entries| - 1])
    else LastWithId(entries[..|entries| - 1], id)
  }

  /** The entries of one level, by scanning. */
  function AtLevel(entries: seq<Item>, level: int): seq<Item> {
    if entries == [] then []
    else AtLevel(entries[..|entries| - 1], level) +
         (if entries[|entries| - 1].level == level then [entries[|entries| - 1]] else [])
  }

  ghost predicate IdIndexed(byId: map<int, Item>, entries: seq<Item>) {
    forall id :: LastWithId(entries, id) == if id in byId then Some(byId[id]) else None
  }

  ghost predicate LevelIndexed(levels: map<int, seq<Item>>, entries: seq<Item>) {
    forall level :: AtLevel(entries, level) == if level in levels then levels[level] else []
  }

  /** With unique ids an entry is found under its id whatever its position. */
  lemma {:induction false} UniqueIdsAreFound(entries: seq<Item>, i: nat)
    requires i < |entries| && forall j, k | 0 <= j < k < |entries| :: entries[j].id != entries[k].id
    ensures LastWithId(entries, entries[i].id) == Some(entries[i])
    decreases |entries|
  {
    if i < |entries| - 1 {
      UniqueIdsAreFound(entries[..|entries| - 1], i);
    }
  }

  /** What the scan for an id finds: the last entry that has it, whatever comes before. */
  lemma {:induction false} LastWithIdIff(entries: seq<Item>, id: int, item: Item)
    ensures LastWithId(entries, id) == Some(item) <==>
            exists i | 0 <= i < |entries| ::
              entries[i] == item && item.id == id && forall j | i < j < |entries| :: entries[j].id != id
    decreases |entries|
  {
    if entries != [] {
      var front, last := entries[..|entries| - 1], entries[|entries| - 1];
      LastWithIdIff(front, id, item);
      assert forall i | 0 <= i < |front| :: front[i] == entries[i];
    }
  }

  /** What the scan for a level finds in one entry, and in two parts of a table. */
  lemma AtLevelOfOne(x: Item, level: int)
    ensures AtLevel([x], level) == if x.level == level then [x] else []
  {
    assert [x][..0] == [];
  }

  lemma AtLevelOfLast(front: seq<Item>, x: Item, level: int)
    ensures AtLevel(front + [x], level) == AtLevel(front, level) + AtLevel([x], level)
  {
    AtLevelOfOne(x, level);
    assert (front + [x])[..|front|] == front;
  }

  lemma {:induction false} AtLevelSplits(a: seq<Item>, b: seq<Item>, level: int)
    ensures AtLevel(a + b, level) == AtLevel(a, level) + AtLevel(b, level)
    decreases |b|
  {
    if b == [] {
      assert a + b == a;
    } else {
      var front, x := b[..|b| - 1], b[|b| - 1];
      assert b == front + [x] && a + b == (a + front) + [x];
      AtLevelSplits(a, front, level);
      AtLevelOfLast(a + front, x, level);
      AtLevelOfLast(front, x, level);
    }
  }

  method InitById(entries: seq<Item>) returns (byId: map<int, Item>)
    ensures IdIndexed(byId, entries)
  {
    byId := map[];
    for i := 0 to |entries|
      invariant IdIndexed(byId, entries[..i])
    {
      assert entries[..i + 1][..i] == entries[..i];
      byId := byId[entries[i].id := entries[i]];
    }
    assert entries[..|entries|] == entries;
  }

  method GroupByLevel(entries: seq<Item>) returns (levels: map<int, seq<Item>>)
    ensures LevelIndexed(levels, entries)
  {
    levels := map[];
    for i := 0 to |entries|
      invariant LevelIndexed(levels, entries[..i])
    {
      assert entries[..i + 1][..i] == entries[..i];
      var item := entries[i];
      levels := levels[item.level := (if item.level in levels then levels[item.level] else []) + [item]];
    }
    assert entries[..|entries|] == entries;
  }

  // ----- paged reading -----

  function Min(a: int, b: int): int {
    if a < b then a else b
  }

  /** The pages a complete read asks for: up to the first one that is not full. */
  predicate Readable(db: Database) {
    forall page | 0 <= page <= |db.items| / LOAD_BATCH_SIZE :: page !in db.badPages
  }

  /** Reads page after page until a page comes back short; a collection that fills its last page
      exactly costs one more, empty page. */
  method LoadNormal(db: Database) returns (ok: bool, allEntries: seq<Item>)
    ensures ok == Readable(db)
    ensures ok <==> forall page | 0 <= page <= |db.items| / 1000 :: page !in db.badPages
    ensures ok ==> allEntries == db.items
  {
    allEntries := [];
    var skip := 0;
    ghost var page := 0;
    while true
      invariant skip == page * LOAD_BATCH_SIZE <= |db.items| && page >= 0
      invariant allEntries == db.items[..skip]
      invariant forall p | 0 <= p < page :: p !in db.badPages
      decreases |db.items| + 1 - skip
    {
      assert skip / LOAD_BATCH_SIZE == page;
      if skip / LOAD_BATCH_SIZE in db.badPages {
        assert page <= |db.items| / LOAD_BATCH_SIZE;
        return false, allEntries;
      }
      var entries := db.items[skip..Min(skip + LOAD_BATCH_SIZE, |db.items|)];
      assert db.items[..skip + |entries|] == db.items[..skip] + entries;
      allEntries := allEntries + entries;
      skip := skip + |entries|;
      if |entries| < LOAD_BATCH_SIZE {
        assert |db.items| / LOAD_BATCH_SIZE == page;
        return true, allEntries;
      }
      page := page + 1;
    }
  }

  // ----- the store of loaded tables -----

  /** The item table, if loaded, is indexed by id. */
  ghost predicate TableIndexed(s: Store) {
    s.item.Some? ==> IdIndexed(s.item.value.byId, s.item.value.entries)
  }

  /** The level index is the one of the current item table. */
  ghost predicate LevelsCurrent(s: Store) {
    s.item.Some? ==> s.levels.Some? && LevelIndexed(s.levels.value, s.item.value.entries)
  }

  predicate KnownTable(name: string) {
    name == TABLE_GLOBAL || name == TABLE_ITEM
  }

  /** The first table in a list of names that cannot be loaded ends the loading. */
  function Loadable(db: Database, names: seq<string>): (n: nat)
    ensures n <= |names|
  {
    if names == [] || !(if names[0] == TABLE_ITEM then Readable(db) else db.globalReadable) then 0
    else 1 + Loadable(db, names[1..])
  }

  lemma {:induction false} LoadableStep(db: Database, names: seq<string>, i: nat)
    requires i < |names|
    ensures var good := if names[i] == TABLE_ITEM then Readable(db) else db.globalReadable;
            (i <= Loadable(db, names) ==> (Loadable(db, names) > i <==> good))
  {
    if i > 0 && Loadable(db, names) > 0 {
      LoadableStep(db, names[1..], i - 1);
    }
  }

  datatype Call = Call(db: Database, names: seq<string>)

  /** One call: the tables loaded before the first failure are replaced, and only a complete
      success rebuilds the level index. */
  ghost predicate Loads(s: Store, call: Call, t: Store, ok: bool) {
    && TableIndexed(t)
    && ok == (Loadable(call.db, call.names) == |call.names|)
    && (if TABLE_ITEM in call.names[..Loadable(call.db, call.names)]
        then t.item.Some? && t.item.value.entries == call.db.items else t.item == s.item)
    && (if ok && TABLE_ITEM in call.names then LevelsCurrent(t) else t.levels == s.levels)
    && (t.global <==> s.global || TABLE_GLOBAL in call.names[..Loadable(call.db, call.names)])
  }

  class ConfigStore {
    var global: bool
    var tblItem: Option<Table>
    var levelOfItems: Option<map<int, seq<Item>>>

    ghost function View(): Store
      reads this
    {
      Store(global, tblItem, levelOfItems)
    }

    constructor ()
      ensures View() == Store(false, None, None)
    {
      global, tblItem, levelOfItems := false, None, None;
    }

    method LoadOne(db: Database, name: string) returns (ok: bool)
      requires KnownTable(name) && TableIndexed(View())
      modifies this
      ensures ok == if name == TABLE_ITEM then Readable(db) else db.globalReadable
      ensures TableIndexed(View()) && levelOfItems == old(levelOfItems)
      ensures if ok && name == TABLE_ITEM then tblItem.Some? && tblItem.value.entries == db.items
              else tblItem == old(tblItem)
      ensures global == (old(global) || (ok && name == TABLE_GLOBAL))
    {
      if name == TABLE_ITEM {
        var entries;
        ok, entries := LoadNormal(db);
        if ok {
          var byId := InitById(entries);
          tblItem := Some(Table(entries, byId));
        }
      } else {
        ok := db.globalReadable;
        if ok {
          global := true;
        }
      }
    }

    /** Loads the named tables in order, then rebuilds the level index if the item table was among
        them. A failure leaves the tables loaded so far in place and runs no hook. */
    method LoadNamed(db: Database, names: seq<string>) returns (ok: bool)
      requires TableIndexed(View()) && forall i | 0 <= i < |names| :: KnownTable(names[i])
      modifies this
      ensures Loads(old(View()), Call(db, names), View(), ok)
    {
      for i := 0 to |names|
        invariant i <= Loadable(db, names) && TableIndexed(View()) && levelOfItems == old(levelOfItems)
        invariant if TABLE_ITEM in names[..i]
                  then tblItem.Some? && tblItem.value.entries == db.items else tblItem == old(tblItem)
        invariant global == (old(global) || TABLE_GLOBAL in names[..i])
      {
        LoadableStep(db, names, i);
        assert names[..i + 1] == names[..i] + [names[i]];
        var loaded := LoadOne(db, names[i]);
        if !loaded {
          return false;
        }
      }
      assert names[..|names|] == names;
      if TABLE_ITEM in names {
        var levels := GroupByLevel(tblItem.value.entries);
        levelOfItems := Some(levels);
      }
      return true;
    }

    /** Loads every table. */
    method Load(db: Option<Database>) returns (ok: bool)
      requires TableIndexed(View())
      modifies this
      ensures ok == (db.Some? && db.value.globalReadable && Readable(db.value))
      ensures db.None? ==> View() == old(View())
      ensures db.Some? ==> Loads(old(View()), Call(db.value, [TABLE_GLOBAL, TABLE_ITEM]), View(), ok)
    {
      if db.None? {
        return false;
      }
      var names := [TABLE_GLOBAL, TABLE_ITEM];
      assert names[1..] == [TABLE_ITEM] && names[1..][1..] == [];
      assert Loadable(db.value, names) == 2 <==> db.value.globalReadable && Loadable(db.value, names[1..]) == 1;
      ok := LoadNamed(db.value, names);
    }

    /** Loads the named tables; a missing database, an empty list or an unknown name changes nothing. */
    method LoadTable(db: Option<Database>, names: seq<string>) returns (ok: bool)
      requires TableIndexed(View())
      modifies this
      ensures if db.None? || names == [] || exists i | 0 <= i < |names| :: !KnownTable(names[i])
              then !ok && View() == old(View())
              else Loads(old(View()), Call(db.value, names), View(), ok)
    {
      if db.None? || |names| == 0 {
        return false;
      }
      for i := 0 to |names|
        invariant forall j | 0 <= j < i :: KnownTable(names[j])
        invariant View() == old(View())
      {
        if !KnownTable(names[i]) {
          return false;
        }
      }
      ok := LoadNamed(db.value, names);
    }
  }

  // ----- sequences of calls -----

  /** Any calls, each over a database of its own, successful or not. */
  ghost predicate History(states: seq<Store>, calls: seq<Call>, oks: seq<bool>) {
    && |states| == |calls| + 1 && |oks| == |calls|
    && states[0] == Store(false, None, None)
    && forall n | 0 <= n < |calls| :: Loads(states[n], calls[n], states[n + 1], oks[n])
  }

  /** The call gets as far as replacing the item table. */
  predicate LoadsItems(call: Call) {
    TABLE_ITEM in call.names[..Loadable(call.db, call.names)]
  }

  /** The call rebuilds the level index. */
  predicate RebuildsLevels(call: Call, ok: bool) {
    ok && TABLE_ITEM in call.names
  }

  /** The item table is that of the last call that replaced it. */
  lemma {:induction false} TableOfLastLoad(states: seq<Store>, calls: seq<Call>, oks: seq<bool>, i: nat)
    requires History(states, calls, oks) && i < |calls| && LoadsItems(calls[i])
    requires forall n | i < n < |calls| :: !LoadsItems(calls[n])
    ensures var s := states[|calls|];
            && s.item.Some? && s.item.value.entries == calls[i].db.items
            && IdIndexed(s.item.value.byId, calls[i].db.items)
    decreases |calls|
  {
    var m := |calls| - 1;
    assert Loads(states[m], calls[m], states[m + 1], oks[m]);
    if i < m {
      TableOfLastLoad(states[..m + 1], calls[..m], oks[..m], i);
    }
  }

  /** The level index is that of the last call that succeeded and named the item table. */
  lemma {:induction false} LevelsOfLastRebuild(states: seq<Store>, calls: seq<Call>, oks: seq<bool>, j: nat)
    requires History(states, calls, oks) && j < |calls| && RebuildsLevels(calls[j], oks[j])
    requires forall n | j < n < |calls| :: !RebuildsLevels(calls[n], oks[n])
    ensures var s := states[|calls|]; s.levels.Some? && LevelIndexed(s.levels.value, calls[j].db.items)
    decreases |calls|
  {
    var m := |calls| - 1;
    assert Loads(states[m], calls[m], states[m + 1], oks[m]);
    if j < m {
      LevelsOfLastRebuild(states[..m + 1], calls[..m], oks[..m], j);
    } else {
      assert calls[m].names[..|calls[m].names|] == calls[m].names;
    }
  }

  ghost predicate SameLevels(a: seq<Item>, b: seq<Item>) {
    forall level :: AtLevel(a, level) == AtLevel(b, level)
  }

  lemma IndexFitsIff(levels: map<int, seq<Item>>, a: seq<Item>, b: seq<Item>)
    requires LevelIndexed(levels, b)
    ensures LevelIndexed(levels, a) <==> SameLevels(a, b)
  {
    if LevelIndexed(levels, a) {
      forall level ensures AtLevel(a, level) == AtLevel(b, level) {
        assert AtLevel(a, level) == if level in levels then levels[level] else [];
      }
    }
  }

  /** After any calls, the level index is current exactly when the items it was built from and the
      items of the current table have the same entries at every level. */
  lemma LevelIndexCurrentIff(states: seq<Store>, calls: seq<Call>, oks: seq<bool>, i: nat, j: nat)
    requires History(states, calls, oks) && i < |calls| && j < |calls|
    requires LoadsItems(calls[i]) && forall n | i < n < |calls| :: !LoadsItems(calls[n])
    requires RebuildsLevels(calls[j], oks[j]) && forall n | j < n < |calls| :: !RebuildsLevels(calls[n], oks[n])
    ensures LevelsCurrent(states[|calls|]) <==>
            SameLevels(calls[i].db.items, calls[j].db.items)
  {
    TableOfLastLoad(states, calls, oks, i);
    LevelsOfLastRebuild(states, calls, oks, j);
    IndexFitsIff(states[|calls|].levels.value, calls[i].db.items, calls[j].db.items);
  }

  /** After successful calls of which one named the item table, the table holds every item of the
      last such call once, in order, and both indexes agree with a scan of it. */
  lemma IndexesFollowTheTable(states: seq<Store>, calls: seq<Call>, oks: seq<bool>, i: nat)
    requires History(states, calls, oks) && forall n | 0 <= n < |calls| :: oks[n]
    requires i < |calls| && TABLE_ITEM in calls[i].names
    requires forall n | i < n < |calls| :: TABLE_ITEM !in calls[n].names
    ensures var s, items := states[|calls|], calls[i].db.items;
            && s.item.Some? && s.item.value.entries == items
            && IdIndexed(s.item.value.byId, items)
            && s.levels.Some? && LevelIndexed(s.levels.value, items)
  {
    assert Loads(states[i], calls[i], states[i + 1], oks[i]);
    assert calls[i].names[..|calls[i].names|] == calls[i].names;
    TableOfLastLoad(states, calls, oks, i);
    LevelsOfLastRebuild(states, calls, oks, i);
  }

  /** One call, whatever it names and wherever it fails: afterwards the level index is current
      exactly when the call rebuilt it, or left the table alone and it was current, or replaced the
      table by one that the old index fits already. */
  lemma FailedCallIndexIff(s: Store, call: Call, t: Store, ok: bool)
    requires Loads(s, call, t, ok)
    ensures LevelsCurrent(t) <==>
            || RebuildsLevels(call, ok)
            || (!LoadsItems(call) && LevelsCurrent(s))
            || (LoadsItems(call) && s.levels.Some? && LevelIndexed(s.levels.value, call.db.items))
  {
    assert ok ==> call.names[..|call.names|] == call.names;
  }

  /** Which calls replace the table without rebuilding its index: those that name the item table
      first and another table later, when only the item table can be loaded. */
  lemma ReplacesWithoutRebuildingIff(s: Store, call: Call, t: Store, ok: bool)
    requires Loads(s, call, t, ok)
    ensures LoadsItems(call) && !RebuildsLevels(call, ok) <==>
            && call.names != [] && call.names[0] == TABLE_ITEM && Readable(call.db)
            && !call.db.globalReadable && exists m | 0 <= m < |call.names| :: call.names[m] != TABLE_ITEM
  {
    var names, l := call.names, Loadable(call.db, call.names);
    forall n | 0 <= n < |names| && n <= l
      ensures l > n <==> if names[n] == TABLE_ITEM then Readable(call.db) else call.db.globalReadable
    {
      LoadableStep(call.db, names, n);
    }
    if LoadsItems(call) && !ok {
      var n :| 0 <= n < l && names[n] == TABLE_ITEM;
      assert names[l] != TABLE_ITEM && names[0] == TABLE_ITEM;
    }
    if names != [] && names[0] == TABLE_ITEM && Readable(call.db) {
      assert names[..l][0] == TABLE_ITEM;
    }
    assert ok ==> names[..l] == names;
  }
}
