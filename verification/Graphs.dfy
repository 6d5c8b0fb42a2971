/** The flows of an app as forests: one trigger each, one parent for every other activity. The compiler derives each
    activity's place in its tree three times over; here the three must agree. */
module Graphs {
  import opened Options

  /** The graphs of an app together; their activity ids differ. */
  datatype App = App(triggers: set<string>, activities: set<string>, transitions: map<string, seq<string>>)

  predicate Leads(app: App, from: string, to: string) {
    from in app.transitions && to in app.transitions[from]
  }

  /** Every activity but the triggers has one parent, and `depth` shows that the transitions do not go in circles. */
  ghost predicate IsForest(app: App, depth: map<string, nat>) {
    && app.triggers <= app.activities && depth.Keys == app.activities
    && (forall from, to {:trigger Leads(app, from, to)} :: Leads(app, from, to) ==>
          from in app.activities && to in app.activities && to !in app.triggers && depth[to] == depth[from] + 1)
    && (forall a, b, to {:trigger Leads(app, a, to), Leads(app, b, to)} :: Leads(app, a, to) && Leads(app, b, to) ==>
        a == b)
    && (forall x {:trigger HasParent(app, x)} :: x in app.activities && x !in app.triggers ==> HasParent(app, x))
  }

  ghost predicate HasParent(app: App, x: string) {
    exists from {:trigger Leads(app, from, x)} :: Leads(app, from, x)
  }

  ghost function ParentOf(app: App, x: string): string
    requires HasParent(app, x)
  {
    var from :| Leads(app, from, x);
    from
  }

  /** From the trigger down to the parent. */
  ghost function Chain(app: App, depth: map<string, nat>, x: string): seq<string>
    requires IsForest(app, depth) && x in app.activities
    decreases depth[x]
  {
    if x in app.triggers then [] else
      assert HasParent(app, x);
      var parent := ParentOf(app, x);
      assert Leads(app, parent, x);
      Chain(app, depth, parent) + [parent]
  }

  lemma ChainStep(app: App, depth: map<string, nat>, from: string, to: string)
    requires IsForest(app, depth) && Leads(app, from, to)
    ensures to in app.activities && from in app.activities && to !in app.triggers && depth[to] == depth[from] + 1
    ensures Chain(app, depth, to) == Chain(app, depth, from) + [from]
    ensures HasParent(app, to) && ParentOf(app, to) == from
  {
    assert HasParent(app, to);
    assert Leads(app, ParentOf(app, to), to);
  }

  /** A way down: from a trigger, along transitions, to the last activity. */
  ghost predicate IsWay(app: App, way: seq<string>) {
    && |way| > 0 && way[0] in app.triggers
    && forall i {:trigger StepAt(app, way, i)} :: 0 <= i < |way| - 1 ==> StepAt(app, way, i)
  }

  predicate StepAt(app: App, way: seq<string>, i: nat) {
    i + 1 < |way| && Leads(app, way[i], way[i + 1])
  }

  /** The ancestors are the one and only way to an activity. */
  lemma {:induction false} ChainIsTheWay(app: App, depth: map<string, nat>, way: seq<string>)
    requires IsForest(app, depth) && IsWay(app, way)
    ensures way[|way| - 1] in app.activities && Chain(app, depth, way[|way| - 1]) == way[..|way| - 1]
    decreases |way|
  {
    var n := |way| - 1;
    if n > 0 {
      var before := way[..n];
      assert IsWay(app, before) by {
        forall i | 0 <= i < |before| - 1 ensures StepAt(app, before, i) {
          assert StepAt(app, way, i);
        }
      }
      ChainIsTheWay(app, depth, before);
      assert StepAt(app, way, n - 1);
      ChainStep(app, depth, way[n - 1], way[n]);
      assert before == before[..n - 1] + [way[n - 1]];
    }
  }

  lemma {:induction false} ChainIsAWay(app: App, depth: map<string, nat>, x: string)
    requires IsForest(app, depth) && x in app.activities
    ensures IsWay(app, Chain(app, depth, x) + [x])
    decreases depth[x]
  {
    var way := Chain(app, depth, x) + [x];
    if x !in app.triggers {
      assert HasParent(app, x);
      var parent := ParentOf(app, x);
      assert Leads(app, parent, x);
      ChainIsAWay(app, depth, parent);
      var before := Chain(app, depth, parent) + [parent];
      assert way == before + [x];
      forall i | 0 <= i < |way| - 1 ensures StepAt(app, way, i) {
        if i < |before| - 1 {
          assert StepAt(app, before, i);
        }
      }
    }
  }

  /** `x` is the node itself or below it. */
  ghost predicate Below(app: App, depth: map<string, nat>, node: string, x: string)
    requires IsForest(app, depth) && x in app.activities
  {
    x == node || node in Chain(app, depth, x)
  }

  /** Whatever is below a node is below one of its children. */
  lemma {:induction false} BelowAChild(app: App, depth: map<string, nat>, node: string, x: string)
    returns (child: string)
    requires IsForest(app, depth) && x in app.activities && Below(app, depth, node, x) && x != node
    ensures Leads(app, node, child) && Below(app, depth, child, x)
    decreases depth[x]
  {
    assert x !in app.triggers;
    assert HasParent(app, x);
    var parent := ParentOf(app, x);
    assert Leads(app, parent, x);
    if parent == node {
      child := x;
    } else {
      child := BelowAChild(app, depth, node, parent);
    }
  }

  lemma {:induction false} AllBelowTriggers(app: App, depth: map<string, nat>, x: string)
    requires IsForest(app, depth) && x in app.activities
    ensures exists t :: t in app.triggers && Below(app, depth, t, x)
    decreases depth[x]
  {
    if x !in app.triggers {
      assert HasParent(app, x);
      var parent := ParentOf(app, x);
      assert Leads(app, parent, x);
      AllBelowTriggers(app, depth, parent);
      var t :| t in app.triggers && Below(app, depth, t, parent);
      assert Below(app, depth, t, x);
    } else {
      assert Below(app, depth, x, x);
    }
  }

  class Manifest {
    const app: App
    var ancestors: map<string, seq<string>>
    var parent: map<string, string>

    constructor (app: App)
      ensures this.app == app && ancestors == map[] && parent == map[]
    {
      this.app := app;
      ancestors, parent := map[], map[];
    }

    /** Nothing but right ancestors has been added. */
    ghost predicate RightOr(depth: map<string, nat>, before: map<string, seq<string>>)
      reads this
      requires IsForest(app, depth)
    {
      && before.Keys <= ancestors.Keys
      && forall x {:trigger ancestors[x]} :: x in ancestors ==>
           (x in app.activities && ancestors[x] == Chain(app, depth, x)) || (x in before && ancestors[x] == before[x])
    }

    /** The depth-first traversal below one node. It ends because the depth grows; `height` bounds it. */
    method Dfs(node: string, parentList: seq<string>, ghost depth: map<string, nat>, ghost height: nat)
      requires IsForest(app, depth) && node in app.activities && parentList == Chain(app, depth, node)
      requires forall x :: x in depth ==> depth[x] <= height
      modifies this`ancestors
      ensures RightOr(depth, old(ancestors))
      ensures forall x {:trigger Below(app, depth, node, x)} :: x in app.activities && Below(app, depth, node, x) ==>
        x in ancestors && ancestors[x] == Chain(app, depth, x)
      decreases height - depth[node]
    {
      ancestors := ancestors[node := parentList];
      var transitions := if node in app.transitions then app.transitions[node] else [];
      var i := 0;
      while i < |transitions|
        invariant 0 <= i <= |transitions|
        invariant RightOr(depth, old(ancestors)) && node in ancestors && ancestors[node] == parentList
        invariant forall j, x {:trigger Below(app, depth, transitions[j], x)} ::
          0 <= j < i && x in app.activities && Below(app, depth, transitions[j], x) ==>
              x in ancestors && ancestors[x] == Chain(app, depth, x)
      {
        assert Leads(app, node, transitions[i]);
        ChainStep(app, depth, node, transitions[i]);
        ghost var before := ancestors;
        Dfs(transitions[i], parentList + [node], depth, height);
        i := i + 1;
      }
      forall x | x in app.activities && Below(app, depth, node, x) && x != node
        ensures x in ancestors && ancestors[x] == Chain(app, depth, x)
      {
        var child := BelowAChild(app, depth, node, x);
        var j :| 0 <= j < |transitions| && transitions[j] == child;
        assert Below(app, depth, transitions[j], x);
      }
    }

    /** Every activity gets the way that leads to it. */
    method BindAncestorArray(triggers: seq<string>, ghost depth: map<string, nat>, ghost height: nat)
      requires IsForest(app, depth) && forall t :: t in triggers <==> t in app.triggers
      requires forall x :: x in depth ==> depth[x] <= height
      modifies this`ancestors
      ensures forall x :: x in app.activities ==> x in ancestors && ancestors[x] == Chain(app, depth, x)
    {
      var i := 0;
      while i < |triggers|
        invariant 0 <= i <= |triggers|
        invariant forall j, x {:trigger Below(app, depth, triggers[j], x)} ::
          0 <= j < i && x in app.activities && Below(app, depth, triggers[j], x) ==>
              x in ancestors && ancestors[x] == Chain(app, depth, x)
      {
        Dfs(triggers[i], [], depth, height);
        i := i + 1;
      }
      forall x | x in app.activities ensures x in ancestors && ancestors[x] == Chain(app, depth, x) {
        AllBelowTriggers(app, depth, x);
        var t :| t in app.triggers && Below(app, depth, t, x);
        var j :| 0 <= j < |triggers| && triggers[j] == t;
        assert Below(app, depth, triggers[j], x);
      }
    }

    /** One pass over the transitions of a graph. */
    method BindParents(ghost depth: map<string, nat>)
      requires IsForest(app, depth)
      modifies this`parent
      ensures forall x {:trigger HasParent(app, x)} :: HasParent(app, x) ==>
          x in parent && parent[x] == ParentOf(app, x)
    {
      var todo := app.transitions.Keys;
      while todo != {}
        invariant todo <= app.transitions.Keys
        invariant forall from, to {:trigger Leads(app, from, to)} :: Leads(app, from, to) && from !in todo ==>
            to in parent && parent[to] == from
        decreases |todo|
      {
        var from :| from in todo;
        var toTransitions := app.transitions[from];
        ghost var before := parent;
        var i := 0;
        while i < |toTransitions|
          invariant 0 <= i <= |toTransitions|
          invariant forall j :: 0 <= j < i ==> toTransitions[j] in parent && parent[toTransitions[j]] == from
          invariant forall x {:trigger x in parent} :: x in before && !Leads(app, from, x) ==>
              x in parent && parent[x] == before[x]
        {
          assert Leads(app, from, toTransitions[i]);
          parent := parent[toTransitions[i] := from];
          i := i + 1;
        }
        todo := todo - {from};
        forall f, to | Leads(app, f, to) && f !in todo ensures to in parent && parent[to] == f {
          if f == from {
            var j :| 0 <= j < |toTransitions| && toTransitions[j] == to;
          } else {
            assert !Leads(app, from, to);
          }
        }
      }
      forall x | HasParent(app, x) ensures x in parent && parent[x] == ParentOf(app, x) {
        assert Leads(app, ParentOf(app, x), x);
      }
    }
  }

  /* ---------- climbing at run time ---------- */

  /** What is stored for the engines: for each activity with transitions, its id behind a dot and where they lead. */
  type AppTransitions = seq<(string, set<string>)>

  ghost predicate Deployed(app: App, obj: AppTransitions) {
    && (forall i {:trigger obj[i]} :: 0 <= i < |obj| ==>
          |obj[i].0| > 0 && obj[i].0[0] == '.' && forall to :: to in obj[i].1 <==> Leads(app, obj[i].0[1..], to))
    && (forall from, to {:trigger Leads(app, from, to)} :: Leads(app, from, to) ==>
          exists i :: 0 <= i < |obj| && obj[i].0 == "." + from)
  }

  method DeployTransitions(app: App) returns (obj: AppTransitions)
    ensures Deployed(app, obj)
  {
    obj := [];
    var todo := app.transitions.Keys;
    while todo != {}
      invariant todo <= app.transitions.Keys
      invariant forall i {:trigger obj[i]} :: 0 <= i < |obj| ==>
        |obj[i].0| > 0 && obj[i].0[0] == '.' && forall to :: to in obj[i].1 <==> Leads(app, obj[i].0[1..], to)
      invariant forall from, to {:trigger Leads(app, from, to)} :: Leads(app, from, to) && from !in todo ==>
        exists i :: 0 <= i < |obj| && obj[i].0 == "." + from
      decreases |todo|
    {
      var from :| from in todo;
      var toTransitions := app.transitions[from];
      var toValues: set<string> := {};
      var i := 0;
      while i < |toTransitions|
        invariant 0 <= i <= |toTransitions|
        invariant forall to :: to in toValues <==> to in toTransitions[..i]
      {
        toValues := toValues + {toTransitions[i]};
        i := i + 1;
        assert toTransitions[..i] == toTransitions[..i - 1] + [toTransitions[i - 1]];
      }
      assert toTransitions[..i] == toTransitions;
      ghost var before := obj;
      if toValues != {} {
        var entry := ("." + from, toValues);
        assert entry.0[1..] == from;
        obj := obj + [entry];
        assert obj[|before|].0 == "." + from;
      }
      todo := todo - {from};
      forall f, to | Leads(app, f, to) && f !in todo ensures exists k :: 0 <= k < |obj| && obj[k].0 == "." + f {
        if f == from {
          assert to in toValues;
        } else {
          var k :| 0 <= k < |before| && before[k].0 == "." + f;
          assert obj[k].0 == "." + f;
        }
      }
    }
  }

  /** `key.replace(/^\./, '')` */
  function Undotted(key: string): string {
    if |key| > 0 && key[0] == '.' then key[1..] else key
  }

  /** Ids are not empty and do not begin with a dot. */
  predicate PlainIds(app: App) {
    forall x :: x in app.activities ==> |x| > 0 && x[0] != '.'
  }

  /** Climbs from an activity to the top, taking the first entry that leads to it. */
  method FindTopKey(obj: AppTransitions, input: string, ghost app: App, ghost depth: map<string, nat>)
    returns (top: Option<string>)
    requires IsForest(app, depth) && Deployed(app, obj) && PlainIds(app)
    ensures top == if input in app.activities && input !in app.triggers then Some(Chain(app, depth, input)[0]) else None
    decreases if input in app.activities then depth[input] else 0
  {
    var i := 0;
    while i < |obj|
      invariant 0 <= i <= |obj|
      invariant forall j :: 0 <= j < i ==> input !in obj[j].1
    {
      var (key, value) := obj[i];
      if input in value {
        ghost var from := key[1..];
        assert Leads(app, from, input);
        ChainStep(app, depth, from, input);
        var parentKey := FindTopKey(obj, Undotted(key), app, depth);
        TopIsPlain(app, depth, from);
        return Some(Undotted(if parentKey.Some? && parentKey.value != "" then parentKey.value else key));
      }
      i := i + 1;
    }
    if input in app.activities && input !in app.triggers {
      ghost var k := EntryFor(app, obj, depth, input);
    }
    top := None;
  }

  lemma EntryFor(app: App, obj: AppTransitions, depth: map<string, nat>, x: string) returns (k: nat)
    requires IsForest(app, depth) && Deployed(app, obj) && x in app.activities && x !in app.triggers
    ensures k < |obj| && x in obj[k].1
  {
    assert HasParent(app, x);
    var from :| Leads(app, from, x);
    k :| 0 <= k < |obj| && obj[k].0 == "." + from;
    assert obj[k].0[1..] == from;
  }

  /** The first of the ancestors is a trigger, whose id is plain. */
  lemma TopIsPlain(app: App, depth: map<string, nat>, x: string)
    requires IsForest(app, depth) && PlainIds(app) && x in app.activities
    ensures var way := Chain(app, depth, x) + [x]; way[0] in app.triggers && |way[0]| > 0 && way[0][0] != '.'
  {
    ChainIsAWay(app, depth, x);
  }

  /** The derivations agree: the last ancestor is the parent, and the first, which `FindTopKey` returns, is a
      trigger. */
  lemma DerivationsAgree(app: App, depth: map<string, nat>, x: string)
    requires IsForest(app, depth) && x in app.activities && x !in app.triggers
    ensures var chain := Chain(app, depth, x);
      |chain| > 0 && chain[|chain| - 1] == ParentOf(app, x) && chain[0] in app.triggers
  {
    ChainIsAWay(app, depth, x);
  }
}
