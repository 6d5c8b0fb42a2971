/** Symbol generation as the compiler and the store carry it out, loop by loop, over the shared store. */
module Deployer {
  import opened Options
  import opened Symbols
  import opened Allocator

  /** What a version's graph asks symbols for. */
  datatype Activity = Activity(id: string, produces: seq<Path>)
  datatype Graph = Graph(topic: string, jobPaths: seq<Path>, activities: seq<Activity>)

  function Prefixed(prefix: string, paths: seq<Path>): (r: seq<Path>)
    ensures |r| == |paths| && forall i :: 0 <= i < |paths| ==> r[i] == prefix + paths[i]
  {
    seq(|paths|, i requires 0 <= i < |paths| => prefix + paths[i])
  }

  function JobItem(graph: Graph): Item {
    Item("$" + graph.topic, JOB, Prefixed("", graph.jobPaths))
  }

  function ActivityItem(activity: Activity): Item {
    Item(activity.id, ACTIVITY, Prefixed(activity.id + "/", activity.produces))
  }

  /** One target after another, until one throws. */
  function DeployAll(s: Store, items: seq<Item>): (Store, bool)
    decreases |items|
  {
    if |items| == 0 then (s, true) else
      var (s', ok) := Deploy(s, items[0]);
      if ok then DeployAll(s', items[1..]) else (s', false)
  }

  function ActivityItems(activities: seq<Activity>): (items: seq<Item>)
    ensures |items| == |activities|
  {
    seq(|activities|, i requires 0 <= i < |activities| => ActivityItem(activities[i]))
  }

  function GraphItems(graph: Graph): seq<Item> {
    [JobItem(graph)] + ActivityItems(graph.activities)
  }

  function Items(graphs: seq<Graph>): seq<Item> {
    if graphs == [] then [] else GraphItems(graphs[0]) + Items(graphs[1..])
  }

  lemma {:induction false} DeployAllAppends(s: Store, a: seq<Item>, b: seq<Item>)
    ensures DeployAll(s, a + b) == var (s', ok) := DeployAll(s, a); if ok then DeployAll(s', b) else (s', false)
    decreases |a|
  {
    hide Deploy;
    if a == [] {
      assert a + b == b;
    } else {
      assert (a + b)[1..] == a[1..] + b;
      DeployAllAppends(Deploy(s, a[0]).0, a[1..], b);
    }
  }

  /** Whatever a version deploys, and wherever it fails, the tables stay sound and nothing is renamed. */
  lemma {:induction false} DeployAllKeeps(s: Store, items: seq<Item>)
    requires Inv(s)
    ensures Inv(DeployAll(s, items).0) && Extends(s, DeployAll(s, items).0)
    decreases |items|
  {
    hide Deploy, RangeOk, Apart, Contains, TableOf;
    if items == [] {
      ExtendsItself(s);
    } else {
      var s' := Deploy(s, items[0]).0;
      DeployKeeps(s, items[0]);
      if Deploy(s, items[0]).1 {
        DeployAllKeeps(s', items[1..]);
        ExtendsTwice(s, s', DeployAll(s', items[1..]).0);
      }
    }
  }

  lemma ExtendsTwice(s: Store, s1: Store, s2: Store)
    requires Extends(s, s1) && Extends(s1, s2)
    ensures Extends(s, s2)
  {
    forall t | t in s.lowers ensures Kept(s, s2, t) {
      assert Kept(s, s1, t) && Kept(s1, s2, t);
    }
  }

  /** Every path a graph binds has a symbol: the trigger's in the topic's table, an activity's in its own. */
  ghost predicate GraphNamed(s: Store, graph: Graph) {
    && (forall p {:trigger p in graph.jobPaths} :: p in graph.jobPaths ==> p in TableOf(s, "$" + graph.topic))
    && (forall a, p {:trigger a in graph.activities, p in a.produces} ::
          a in graph.activities && p in a.produces ==> a.id + "/" + p in TableOf(s, a.id))
  }

  /** And so do the metadata of its job and of its activities. */
  ghost predicate GraphMetadataNamed(s: Store, graph: Graph) {
    && MetadataNamed(s, "$" + graph.topic, JOB)
    && forall a {:trigger a in graph.activities} :: a in graph.activities ==> MetadataNamed(s, a.id, ACTIVITY)
  }

  /** No activity bears a name that a job's symbol set could have. */
  ghost predicate IdsArePlain(graphs: seq<Graph>) {
    forall g, a {:trigger g in graphs, a in g.activities} :: g in graphs && a in g.activities ==> !("$" <= a.id)
  }

  ghost predicate IsNew(s: Store, graph: Graph) {
    && "$" + graph.topic !in s.lowers
    && forall a {:trigger a in graph.activities} :: a in graph.activities ==> a.id !in s.lowers
  }

  /** A deployment that reaches its end has named every path of every target. */
  lemma {:induction false} DeployAllNames(s: Store, items: seq<Item>, item: Item, p: Path)
    requires Inv(s) && DeployAll(s, items).1 && item in items && p in item.paths
    ensures p in TableOf(DeployAll(s, items).0, item.target)
    decreases |items|
  {
    hide Deploy, Inv, Contains;
    var s' := Deploy(s, items[0]).0;
    DeployKeeps(s, items[0]);
    if items[0] == item {
      DeployedPathsHaveSymbols(s, item, p);
      DeployReserves(s, item);
      DeployAllKeeps(s', items[1..]);
      StaysNamed(s', DeployAll(s', items[1..]).0, item.target, p);
    } else {
      assert item in items[1..];
      DeployAllNames(s', items[1..], item, p);
    }
  }

  lemma StaysNamed(s: Store, s': Store, target: Target, p: Path)
    requires Extends(s, s') && target in s.lowers && p in TableOf(s, target)
    ensures p in TableOf(s', target)
  {
    assert Kept(s, s', target);
  }

  /** And the metadata of every target that is new with it. */
  lemma {:induction false} DeployAllSeeds(s: Store, items: seq<Item>, target: Target, kind: Kind)
    requires Inv(s) && DeployAll(s, items).1 && target !in s.lowers
    requires (exists i :: 0 <= i < |items| && items[i].target == target) && OneKind(items, target, kind)
    ensures MetadataNamed(DeployAll(s, items).0, target, kind)
    decreases |items|
  {
    hide Deploy, Inv, Contains, MetadataNamed;
    var s' := Deploy(s, items[0]).0;
    DeployKeeps(s, items[0]);
    DeployReserves(s, items[0]);
    if items[0].target == target {
      FirstDeployNamesMetadata(s, items[0]);
      DeployAllKeeps(s', items[1..]);
      MetadataStaysNamed(s', DeployAll(s', items[1..]).0, target, kind);
    } else {
      var i :| 0 <= i < |items| && items[i].target == target;
      assert items[1..][i - 1].target == target;
      DeployAllSeeds(s', items[1..], target, kind);
    }
  }

  lemma {:induction false} GraphIsDeployed(graphs: seq<Graph>, graph: Graph, item: Item)
    requires graph in graphs && item in GraphItems(graph)
    ensures item in Items(graphs)
  {
    hide GraphItems;
    if graphs[0] != graph {
      assert graph in graphs[1..];
      GraphIsDeployed(graphs[1..], graph, item);
    }
  }

  /** A target tells its kind. */
  lemma {:induction false} TargetTellsKind(graphs: seq<Graph>, item: Item)
    requires IdsArePlain(graphs) && item in Items(graphs)
    ensures item.kind == JOB <==> "$" <= item.target
    decreases |graphs|
  {
    var activities := graphs[0].activities;
    assert graphs[0] in graphs;
    if item in ActivityItems(activities) {
      var i :| 0 <= i < |activities| && item == ActivityItem(activities[i]);
      assert activities[i] in activities;
    } else if item != JobItem(graphs[0]) {
      assert forall g :: g in graphs[1..] ==> g in graphs;
      TargetTellsKind(graphs[1..], item);
    }
  }

  lemma GraphIsNamed(s: Store, graphs: seq<Graph>, graph: Graph)
    requires Inv(s) && DeployAll(s, Items(graphs)).1 && graph in graphs
    ensures GraphNamed(DeployAll(s, Items(graphs)).0, graph)
  {
    hide Inv, DeployAll, Items, TableOf;
    var s', items := DeployAll(s, Items(graphs)).0, Items(graphs);
    var jobItem := JobItem(graph);
    assert GraphItems(graph)[0] == jobItem;
    GraphIsDeployed(graphs, graph, jobItem);
    forall p | p in graph.jobPaths ensures p in TableOf(s', "$" + graph.topic) {
      var k :| 0 <= k < |graph.jobPaths| && graph.jobPaths[k] == p;
      assert jobItem.paths[k] == "" + p == p;
      DeployAllNames(s, items, jobItem, p);
    }
    forall a, p | a in graph.activities && p in a.produces ensures a.id + "/" + p in TableOf(s', a.id) {
      var item := ActivityItem(a);
      ActivityIsDeployed(graphs, graph, a);
      var k :| 0 <= k < |a.produces| && a.produces[k] == p;
      assert item.paths[k] == a.id + "/" + p;
      DeployAllNames(s, items, item, a.id + "/" + p);
    }
  }

  lemma ActivityIsDeployed(graphs: seq<Graph>, graph: Graph, a: Activity)
    requires graph in graphs && a in graph.activities
    ensures ActivityItem(a) in Items(graphs)
  {
    hide Items;
    var i :| 0 <= i < |graph.activities| && graph.activities[i] == a;
    assert GraphItems(graph)[i + 1] == ActivityItems(graph.activities)[i] == ActivityItem(a);
    GraphIsDeployed(graphs, graph, ActivityItem(a));
  }

  lemma GraphMetadataIsNamed(s: Store, graphs: seq<Graph>, graph: Graph)
    requires Inv(s) && DeployAll(s, Items(graphs)).1 && graph in graphs && IdsArePlain(graphs) && IsNew(s, graph)
    ensures GraphMetadataNamed(DeployAll(s, Items(graphs)).0, graph)
  {
    hide Inv, DeployAll, Items, MetadataNamed;
    var items := Items(graphs);
    forall i | 0 <= i < |items| ensures items[i].kind == JOB <==> "$" <= items[i].target {
      TargetTellsKind(graphs, items[i]);
    }
    assert GraphItems(graph)[0] == JobItem(graph);
    GraphIsDeployed(graphs, graph, JobItem(graph));
    DeployAllSeeds(s, items, "$" + graph.topic, JOB);
    forall a | a in graph.activities ensures MetadataNamed(DeployAll(s, items).0, a.id, ACTIVITY) {
      ActivityIsDeployed(graphs, graph, a);
      assert ActivityItem(a).target == a.id;
      DeployAllSeeds(s, items, a.id, ACTIVITY);
    }
  }

  class StoreService {
    var cursor: nat
    var ranges: map<Target, nat>
    var symbols: map<Target, Table>

    function Value(): Store
      reads this
    {
      Store(cursor, ranges, symbols)
    }

    constructor ()
      ensures Value() == EMPTY
    {
      cursor, ranges, symbols := 0, map[], map[];
    }

    method SeedSymbols(target: Target, kind: Kind, startIndex: nat) returns (hash: Option<Table>)
      ensures hash == Seeds(kind, target, startIndex, MetadataKeys(kind))
      ensures hash.None? <==> startIndex + |MetadataKeys(kind)| > KEY_LIMIT
      ensures hash.Some? ==> Seeded(kind, target, startIndex, MetadataKeys(kind), hash.value)
    {
      hide MetadataKeys, GetSymKey, MetadataPath, Seeded;
      var keys := MetadataKeys(kind);
      SeedsFailExactly(kind, target, startIndex, keys);
      assert |keys| > 0 by {
        SomeKeys(kind);
      }
      var table: Table := map[];
      var i := 0;
      while i < |keys|
        invariant 0 <= i <= |keys|
        invariant Seeds(kind, target, startIndex, keys[..i]) == Some(table)
      {
        assert keys[..i + 1][..i] == keys[..i];
        var symbol := GetSymKey(startIndex + i);
        if symbol.None? {
          SeedsStop(kind, target, startIndex, keys, i + 1);
          return None;
        }
        table := table[MetadataPath(kind, target, keys[i]) := symbol.value];
        i := i + 1;
      }
      assert keys[..i] == keys;
      KeysAreUnlike(kind);
      SeedsName(kind, target, startIndex, keys);
      hash := Some(table);
    }

    method ReserveSymbolRange(target: Target, kind: Kind) returns (reservation: Option<Reservation>)
      modifies this
      ensures Value() == Reserve(old(Value()), target, kind).0 && reservation == Reserve(old(Value()), target, kind).1
      ensures old(target !in ranges) ==>
        && cursor == old(cursor) + 286 && ranges == old(ranges)[target := old(cursor)]
        && (reservation.Some? <==> old(cursor) + |MetadataKeys(kind)| <= KEY_LIMIT)
        && (reservation.Some? ==>
              && reservation.value == Reservation(old(cursor) + 26, old(cursor) + 285, map[]) && target in symbols
              && Numbered(kind, target, old(cursor), MetadataKeys(kind), symbols[target]))
      ensures old(target in ranges) ==>
        var table := old(if target in symbols then symbols[target] else map[]);
        && cursor == old(cursor) && ranges == old(ranges) && symbols == old(symbols)
        && reservation == Some(Reservation(ranges[target] + 26 + |table|, ranges[target] + 285, table))
    {
      hide Seeds, MetadataKeys, Seeded, Numbered;
      ghost var s := Value();
      var existing := TableOf(Value(), target);
      if target !in ranges {
        cursor := cursor + RANGE_SIZE;
        var upperLimit := cursor;
        var lowerLimit := upperLimit - RANGE_SIZE;
        ranges := ranges[target := lowerLimit];
        var seeds := SeedSymbols(target, kind, lowerLimit);
        if seeds.None? {
          return None;
        }
        symbols := symbols[target := existing + seeds.value];
        NumberedInLarger(kind, target, lowerLimit, MetadataKeys(kind), existing, seeds.value);
        reservation := Some(Reservation(lowerLimit + SLOTS, upperLimit - 1, map[]));
        assert Value() == ReserveFirst(s, target, seeds).0;
      } else {
        var lowerLimit := ranges[target];
        reservation := Some(Reservation(lowerLimit + SLOTS + |existing|, lowerLimit + RANGE_SIZE - 1, existing));
      }
    }

    method AddSymbols(target: Target, added: Table)
      modifies this`symbols
      ensures Value() == Add(old(Value()), target, added)
    {
      if |added| != 0 {
        symbols := symbols[target := TableOf(Value(), target) + added];
      }
    }
  }

  lemma {:induction false} SeedsStop(kind: Kind, target: Target, lower: nat, keys: seq<string>, i: nat)
    requires i <= |keys| && Seeds(kind, target, lower, keys[..i]).None?
    ensures Seeds(kind, target, lower, keys).None?
    decreases |keys|
  {
    hide GetSymKey, MetadataPath;
    if i < |keys| {
      var n := |keys| - 1;
      assert keys[..n][..i] == keys[..i];
      SeedsStop(kind, target, lower, keys[..n], i);
    } else {
      assert keys[..i] == keys;
    }
  }

  class Compiler {
    const store: StoreService

    constructor (store: StoreService)
      ensures this.store == store
    {
      this.store := store;
    }

    method BindSymbols(startIndex: nat, maxIndex: int, existing: Table, prefix: string, produces: seq<Path>)
      returns (newSymbols: Option<Table>)
      ensures newSymbols == NewSymbols(Prefixed(prefix, produces), startIndex, maxIndex, existing, map[])
    {
      var paths := Prefixed(prefix, produces);
      var next: nat := startIndex;
      var added: Table := map[];
      var i := 0;
      assert paths[0..] == paths;
      while i < |produces|
        invariant 0 <= i <= |produces|
        invariant NewSymbols(paths, startIndex, maxIndex, existing, map[])
               == NewSymbols(paths[i..], next, maxIndex, existing, added)
      {
        assert paths[i..][1..] == paths[i + 1..];
        var fullPath := prefix + produces[i];
        if fullPath !in existing && fullPath !in added {
          if next > maxIndex {
            return None;
          }
          var symbol := GetSymKey(next);
          if symbol.None? {
            return None;
          }
          next := next + 1;
          added := added[fullPath := symbol.value];
        }
        i := i + 1;
      }
      newSymbols := Some(added);
    }

    /** One target; false when it throws. */
    method GenerateFor(target: Target, kind: Kind, prefix: string, produces: seq<Path>) returns (ok: bool)
      modifies store
      ensures (store.Value(), ok) == Deploy(old(store.Value()), Item(target, kind, Prefixed(prefix, produces)))
    {
      var reservation := store.ReserveSymbolRange(target, kind);
      if reservation.None? {
        return false;
      }
      var r := reservation.value;
      var newSymbols := BindSymbols(r.start, r.max, r.existing, prefix, produces);
      if newSymbols.None? {
        return false;
      }
      store.AddSymbols(target, newSymbols.value);
      ok := true;
    }

    method GenerateGraph(graph: Graph) returns (ok: bool)
      modifies store
      ensures (store.Value(), ok) == DeployAll(old(store.Value()), GraphItems(graph))
    {
      hide Deploy;
      ghost var start := store.Value();
      ghost var items := ActivityItems(graph.activities);
      OneItem(start, JobItem(graph));
      DeployAllAppends(start, [JobItem(graph)], items);
      ok := GenerateFor("$" + graph.topic, JOB, "", graph.jobPaths);
      if !ok {
        return;
      }
      ghost var seeded := store.Value();
      var i := 0;
      assert items[0..] == items;
      while i < |graph.activities|
        invariant 0 <= i <= |graph.activities|
        invariant DeployAll(seeded, items) == DeployAll(store.Value(), items[i..])
      {
        assert items[i..][1..] == items[i + 1..];
        var activity := graph.activities[i];
        ok := GenerateFor(activity.id, ACTIVITY, activity.id + "/", activity.produces);
        if !ok {
          return;
        }
        i := i + 1;
      }
      ok := true;
    }

    /** A version's symbols. Sound tables stay sound, and no path that had a symbol gets another. */
    method GenerateSymKeys(graphs: seq<Graph>) returns (ok: bool)
      modifies store
      ensures (store.Value(), ok) == DeployAll(old(store.Value()), Items(graphs))
      ensures old(Inv(store.Value())) ==> Inv(store.Value()) && Extends(old(store.Value()), store.Value())
      ensures ok && old(Inv(store.Value())) ==> forall g :: g in graphs ==> GraphNamed(store.Value(), g)
      ensures ok && old(Inv(store.Value())) && IdsArePlain(graphs) ==>
        forall g :: g in graphs && IsNew(old(store.Value()), g) ==> GraphMetadataNamed(store.Value(), g)
    {
      hide Deploy, GraphItems, Inv, Extends, GraphNamed, GraphMetadataNamed, IdsArePlain, IsNew;
      ghost var start := store.Value();
      AllAreNamed(start, graphs);
      var i := 0;
      assert graphs[0..] == graphs;
      while i < |graphs|
        invariant 0 <= i <= |graphs|
        invariant DeployAll(start, Items(graphs)) == DeployAll(store.Value(), Items(graphs[i..]))
      {
        assert graphs[i..][1..] == graphs[i + 1..];
        DeployAllAppends(store.Value(), GraphItems(graphs[i]), Items(graphs[i + 1..]));
        ok := GenerateGraph(graphs[i]);
        if !ok {
          return;
        }
        i := i + 1;
      }
      ok := true;
    }
  }

  lemma AllAreNamed(s: Store, graphs: seq<Graph>)
    ensures var (s', ok) := DeployAll(s, Items(graphs)); Inv(s) ==>
      && Inv(s') && Extends(s, s')
      && (ok ==> forall g :: g in graphs ==> GraphNamed(s', g))
      && (ok && IdsArePlain(graphs) ==> forall g :: g in graphs && IsNew(s, g) ==> GraphMetadataNamed(s', g))
  {
    hide *;
    if Inv(s) {
      var (s', ok) := DeployAll(s, Items(graphs));
      DeployAllKeeps(s, Items(graphs));
      if ok {
        forall g | g in graphs ensures GraphNamed(s', g) {
          GraphIsNamed(s, graphs, g);
        }
        forall g | g in graphs && IdsArePlain(graphs) && IsNew(s, g) ensures GraphMetadataNamed(s', g) {
          GraphMetadataIsNamed(s, graphs, g);
        }
      }
    }
  }

  lemma OneItem(s: Store, item: Item)
    ensures DeployAll(s, [item]) == Deploy(s, item)
  {
    hide Deploy;
    assert [item][1..] == [];
    assert DeployAll(Deploy(s, item).0, []) == (Deploy(s, item).0, true);
  }
}
