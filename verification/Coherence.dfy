/** What a job needs of its app's symbol tables follows from the manifests that were deployed. */
module Coherence {
  import opened Options
  import Symbols
  import opened Allocator
  import Deployer
  import JobState
  import StateStore

  /** An activity's id, which its paths begin with: neither a path itself nor one of the job's own prefixes. */
  predicate IsId(id: string) {
    '/' !in id && id != "data" && id != "metadata" && !("$" <= id)
  }

  /** A graph binds job paths under `data/`, and each activity's paths under its id. */
  predicate GraphFits(graph: Deployer.Graph) {
    && (forall i :: 0 <= i < |graph.jobPaths| ==> "data/" <= graph.jobPaths[i])
    && (forall i :: 0 <= i < |graph.activities| ==> IsId(graph.activities[i].id))
  }

  predicate ItemFits(item: Item) {
    match item.kind
    case JOB => "$" <= item.target && forall i :: 0 <= i < |item.paths| ==> "data/" <= item.paths[i]
    case ACTIVITY => IsId(item.target) && forall i :: 0 <= i < |item.paths| ==> item.target + "/" <= item.paths[i]
  }

  lemma GraphItemsFit(graph: Deployer.Graph, i: nat)
    requires GraphFits(graph) && i < |Deployer.GraphItems(graph)|
    ensures ItemFits(Deployer.GraphItems(graph)[i])
  {
    var item := Deployer.GraphItems(graph)[i];
    if i == 0 {
      assert item == Deployer.JobItem(graph);
      forall k | 0 <= k < |item.paths| ensures "data/" <= item.paths[k] {
        assert item.paths[k] == "" + graph.jobPaths[k] == graph.jobPaths[k];
      }
    } else {
      assert item == Deployer.ActivityItem(graph.activities[i - 1]);
    }
  }

  /** The paths that may stand in a target's table. */
  predicate PathFits(target: Target, p: Path) {
    if "$" <= target then "data/" <= p || "metadata/" <= p else IsId(target) && target + "/" <= p
  }

  ghost predicate TableFits(target: Target, t: Table) {
    forall p {:trigger p in t} :: p in t ==> PathFits(target, p)
  }

  ghost predicate StoreFits(s: Store) {
    forall target {:trigger target in s.tables} :: target in s.tables ==> TableFits(target, s.tables[target])
  }

  lemma {:induction false} SeedsFit(kind: Kind, target: Target, lower: nat, keys: seq<string>)
    requires Seeds(kind, target, lower, keys).Some?
    requires forall key :: PathFits(target, MetadataPath(kind, target, key))
    ensures TableFits(target, Seeds(kind, target, lower, keys).value)
    decreases |keys|
  {
    if keys != [] {
      SeedsFit(kind, target, lower, keys[..|keys| - 1]);
    }
  }

  lemma {:induction false} NewSymbolsFit(target: Target, paths: seq<Path>, start: nat, max: int, existing: Table,
      added: Table)
    requires NewSymbols(paths, start, max, existing, added).Some? && TableFits(target, added)
    requires forall i :: 0 <= i < |paths| ==> PathFits(target, paths[i])
    ensures TableFits(target, NewSymbols(paths, start, max, existing, added).value)
    decreases |paths|
  {
    if paths != [] {
      if paths[0] in existing || paths[0] in added {
        NewSymbolsFit(target, paths[1..], start, max, existing, added);
      } else {
        var symbol := Symbols.GetSymKey(start).value;
        NewSymbolsFit(target, paths[1..], start + 1, max, existing, added[paths[0] := symbol]);
      }
    }
  }

  lemma MetadataFits(item: Item, key: string)
    requires ItemFits(item)
    ensures PathFits(item.target, MetadataPath(item.kind, item.target, key))
  {
    if item.kind == ACTIVITY {
      assert item.target + "/output/metadata/" + key == item.target + "/" + ("output/metadata/" + key);
    }
  }

  lemma ReservationFits(s: Store, item: Item)
    requires StoreFits(s) && ItemFits(item)
    ensures StoreFits(Reserve(s, item.target, item.kind).0)
  {
    if item.target !in s.lowers {
      var seeds := Seeds(item.kind, item.target, s.cursor, MetadataKeys(item.kind));
      forall key ensures PathFits(item.target, MetadataPath(item.kind, item.target, key)) {
        MetadataFits(item, key);
      }
      if seeds.Some? {
        SeedsFit(item.kind, item.target, s.cursor, MetadataKeys(item.kind));
        var merged := TableOf(s, item.target) + seeds.value;
        assert TableFits(item.target, merged);
      }
    }
  }

  lemma BindingFits(s: Store, item: Item, reservation: Option<Reservation>)
    requires StoreFits(s) && ItemFits(item)
    ensures StoreFits(Bind(s, reservation, item.target, item.paths).0)
  {
    if reservation.Some? {
      var r := reservation.value;
      if NewSymbols(item.paths, r.start, r.max, r.existing, map[]).Some? {
        NewSymbolsFit(item.target, item.paths, r.start, r.max, r.existing, map[]);
        var added := NewSymbols(item.paths, r.start, r.max, r.existing, map[]).value;
        assert TableFits(item.target, TableOf(s, item.target) + added);
      }
    }
  }

  lemma {:induction false} RunFits(t: Trace, n: nat)
    requires IsRun(t) && n < |t.stores| && forall i :: 0 <= i < |t.items| ==> ItemFits(t.items[i])
    ensures StoreFits(t.stores[n])
  {
    if n > 0 {
      RunFits(t, n - 1);
      assert StepAt(t, n - 1);
      var s, item := t.stores[n - 1], t.items[n - 1];
      ReservationFits(s, item);
      BindingFits(Reserve(s, item.target, item.kind).0, item, Reserve(s, item.target, item.kind).1);
    }
  }

  /** A path tells the activity it belongs to, or that it is the job's. */
  lemma PathTellsTarget(n: Target, m: Target, p: Path)
    requires PathFits(n, p) && PathFits(m, p)
    ensures "$" <= n <==> "$" <= m
    ensures !("$" <= n) ==> n == m
  {
    if !("$" <= n) {
      FirstSlash(n, p);
      if "$" <= m {
        assert p[..|n|] == n && p[|n|] == '/';
        if "data/" <= p {
          FirstSlash("data", p);
        } else {
          FirstSlash("metadata", p);
        }
        SameFirstSlash(n, if "data/" <= p then "data" else "metadata", p);
      } else {
        SameFirstSlash(n, m, p);
      }
    } else if !("$" <= m) {
      SameFirstSlash(m, if "data/" <= p then "data" else "metadata", p);
    }
  }

  lemma FirstSlash(id: string, p: Path)
    requires id + "/" <= p
    ensures |id| < |p| && p[|id|] == '/' && p[..|id|] == id
  {
    assert p[..|id| + 1] == id + "/";
    assert p[|id|] == (id + "/")[|id|];
    assert p[..|id|] == p[..|id| + 1][..|id|];
  }

  lemma SameFirstSlash(n: string, m: string, p: Path)
    requires n + "/" <= p && m + "/" <= p && '/' !in n && '/' !in m
    ensures n == m
  {
    FirstSlash(n, p);
    FirstSlash(m, p);
    assert forall k :: 0 <= k < |n| ==> p[k] == n[k] && p[k] != '/';
    assert forall k :: 0 <= k < |m| ==> p[k] == m[k] && p[k] != '/';
  }

  /** Whatever versions were deployed, and wherever a deployment failed: the tables are fit for every job of the app,
      whose sets are those of its activities and of one topic. */
  lemma DeployedTablesServeJobs(t: Trace, n: nat, names: set<string>)
    requires IsRun(t) && n < |t.stores| && forall i :: 0 <= i < |t.items| ==> ItemFits(t.items[i])
    requires forall a, b :: a in names && b in names && "$" <= a && "$" <= b ==> a == b
    ensures JobState.AppSound(t.stores[n].tables) && JobState.Coherent(t.stores[n].tables, names)
  {
    var tables := t.stores[n].tables;
    RunFits(t, n);
    forall a, p | JobState.Names(tables, a, p) ensures !Symbols.IsSymKey(p) && p != "" && p != ":" {
      assert TableFits(a, tables[a]) && PathFits(a, p);
      HasSlash(a, p);
    }
    JobState.AllocatedTablesAreSound(t, n);
    forall a, b, p | a in names && b in names && JobState.Names(tables, a, p) && JobState.Names(tables, b, p)
      ensures a == b
    {
      assert TableFits(a, tables[a]) && TableFits(b, tables[b]) && PathFits(a, p) && PathFits(b, p);
      PathTellsTarget(a, b, p);
    }
  }

  lemma HasSlash(target: Target, p: Path)
    requires PathFits(target, p)
    ensures !Symbols.IsSymKey(p) && p != "" && p != ":"
  {
    var id := if !("$" <= target) then target else if "data/" <= p then "data" else "metadata";
    FirstSlash(id, p);
    assert p[|id|] == '/' && !Symbols.IsLetter('/');
  }

  lemma LedgerIsMetadata(target: Target)
    ensures "as" in MetadataKeys(ACTIVITY)
    ensures IsMetadataPath(ACTIVITY, target, "as", StateStore.LedgerPath(target))
  {
    assert MetadataKeys(ACTIVITY)[2] == "as";
  }

  /** The ledger of an activity that was ever deployed, even where that deployment threw, has a field of its own, as
      the collator asks of the tables: exactly as long as its range begins low enough for the metadata. */
  lemma LedgersAreNamedExactly(t: Trace, n: nat, target: Target)
    requires IsRun(t) && n < |t.stores| && target in t.stores[n].lowers && OneKind(t.items, target, ACTIVITY)
    ensures JobState.Names(t.stores[n].tables, target, StateStore.LedgerPath(target)) <==>
      t.stores[n].lowers[target] + 10 <= Symbols.KEY_LIMIT
  {
    hide IsMetadataPath, StateStore.LedgerPath;
    if t.stores[n].lowers[target] + |MetadataKeys(ACTIVITY)| <= Symbols.KEY_LIMIT {
      MetadataAreNamed(t, n, target, ACTIVITY);
      LedgerIsMetadata(target);
    } else {
      TooHighStaysEmpty(t, n, target, ACTIVITY);
    }
  }

  /** So it is for each activity of a version that was deployed to its end. */
  lemma DeployedLedgersAreNamed(s: Store, graphs: seq<Deployer.Graph>, graph: Deployer.Graph, a: Deployer.Activity)
    requires Inv(s) && Deployer.DeployAll(s, Deployer.Items(graphs)).1 && graph in graphs && a in graph.activities
    requires Deployer.IdsArePlain(graphs) && Deployer.IsNew(s, graph)
    ensures JobState.Names(Deployer.DeployAll(s, Deployer.Items(graphs)).0.tables, a.id, StateStore.LedgerPath(a.id))
  {
    hide Inv, Deployer.DeployAll, Deployer.Items, Deployer.IdsArePlain, Deployer.IsNew, MetadataKeys, IsMetadataPath,
      StateStore.LedgerPath;
    Deployer.GraphMetadataIsNamed(s, graphs, graph);
    LedgerIsMetadata(a.id);
  }
}
