/** Jobs spawned by await activities of other jobs, to any depth: each job runs as in JobRun, and messages
    between jobs are the request that spawns a child and the result a finished child sends back. */
module Nesting {
  import opened Options
  import opened Collator
  import opened JobRun
  import opened JobTheorems

  type Jid = string
  type Site = (Jid, Aid)

  /** How far one await activity's call has come. */
  datatype Call =
    | Asking                 // leg 1 has committed; its engine is about to publish the request
    | Requested(tries: nat)  // the request is in the stream and has been processed `tries` times
    | Lost                   // the engine died before publishing the request

  datatype Universe = Universe(
    jobs: map<Jid, World>,
    graphs: map<Jid, Graph>,
    parent: map<Jid, Site>,      // the parent job and activity a job was spawned for
    calls: map<Site, Call>,
    errors: set<Site>,           // await activities told of an error
    sent: multiset<Jid>)         // one entry per result published, by the job that finished

  /** A request may be processed any number of times. Each time it spawns a job or, if there is a job of the
      child's id already, is refused; an engine that lives on then tells the await activity of an error. The same
      happens when a transition message is delivered to the activity again, and refused by its ledger. */
  datatype Happening =
    | NewJob(j: Jid, g: Graph)                   // a caller creates a top-level job
    | Local(j: Jid, e: Event)                    // any step of an existing job
    | Ask(site: Site)
    | Spawn(site: Site, child: Jid, g: Graph)
    | Refuse(site: Site, child: Jid, told: bool)
    | Complain(site: Site)                       // the refusal of a second leg-1 entry is told
    | LoseCall(site: Site)

  predicate IsCall(u: Universe, site: Site, c: Call) {
    site in u.calls && u.calls[site] == c
  }

  predicate IsRequested(u: Universe, site: Site) {
    site in u.calls && u.calls[site].Requested?
  }

  ghost predicate IsChild(u: Universe, c: Jid, site: Site) {
    c in u.parent && u.parent[c] == site
  }

  /** A result of some child of the activity, or an error, has been published; it may be delivered any number
      of times. */
  ghost predicate IsTold(u: Universe, site: Site) {
    site in u.errors || exists c :: IsChild(u, c, site) && u.sent[c] > 0
  }

  /** Besides what a job's own step needs: an await activity is re-entered only by a result or an error. */
  ghost predicate May(u: Universe, h: Happening) {
    match h
    case NewJob(j, g) => j !in u.jobs && RootedTree(g)
    case Local(j, e) =>
      && j in u.jobs && j in u.graphs && e != CreateJob && Enabled(u.graphs[j], u.jobs[j], e)
      && (e.ReenterLeg? && KindOf(u.graphs[j], e.a) == Await ==> IsTold(u, (j, e.a)))
    case Ask(site) => IsCall(u, site, Asking)
    case Spawn(site, child, g) => IsRequested(u, site) && child !in u.jobs && RootedTree(g)
    case Refuse(site, child, told) => IsRequested(u, site) && child in u.jobs
    case Complain(site) => site in u.calls
    case LoseCall(site) => IsCall(u, site, Asking)
  }

  /** A new job, its trigger about to choose the first children. */
  const CREATED := (g: Graph) => EMPTY.(hash := Hash(Some(1), map[]), live := {g.trigger}, handed := {g.trigger})

  /** The universe after job `j` took step `e` to world `w'`: an await activity's waiting commit starts a
      call, and the completion tasks of a spawned job publish its result. */
  function Moved(u: Universe, j: Jid, e: Event, w': World): Universe
    requires j in u.graphs
  {
    var u' := u.(jobs := u.jobs[j := w']);
    if e.CommitWaiting? && KindOf(u.graphs[j], e.a) == Await then
      u'.(calls := u.calls[(j, e.a) := Asking])
    else if e.RunCompletionTasks? && j in u.parent then
      u'.(sent := u.sent + multiset{j})
    else u'
  }

  /** The request has been processed once more. */
  function Tried(u: Universe, site: Site): Universe
    requires IsRequested(u, site)
  {
    u.(calls := u.calls[site := Requested(u.calls[site].tries + 1)])
  }

  ghost function Then(u: Universe, h: Happening): Universe
    requires May(u, h)
  {
    match h
    case NewJob(j, g) => u.(jobs := u.jobs[j := CREATED(g)], graphs := u.graphs[j := g])
    case Local(j, e) => Moved(u, j, e, After(u.graphs[j], u.jobs[j], e))
    case Ask(site) => u.(calls := u.calls[site := Requested(0)])
    case Spawn(site, child, g) =>
      Tried(u, site).(jobs := u.jobs[child := CREATED(g)], graphs := u.graphs[child := g],
                      parent := u.parent[child := site])
    case Refuse(site, child, told) => Tried(u, site).(errors := if told then u.errors + {site} else u.errors)
    case Complain(site) => u.(errors := u.errors + {site})
    case LoseCall(site) => u.(calls := u.calls[site := Lost])
  }

  const NONE := Universe(map[], map[], map[], map[], {}, multiset{})

  /* ---------- the invariant ---------- */

  ghost predicate JobOk(u: Universe, j: Jid) {
    && (j in u.jobs <==> j in u.graphs)
    && (j in u.jobs ==> RootedTree(u.graphs[j]) && Inv(u.graphs[j], u.jobs[j]) && u.jobs[j].hash.status.Some?)
    && (j in u.parent ==> j in u.jobs)
    && u.sent[j] == if j in u.parent then u.jobs[j].ran else 0
  }

  /** The activity is live and stays out of its second leg. */
  ghost predicate Held(g: Graph, w: World, a: Aid) {
    a in w.live && !InLeg(w, a, Two)
  }

  ghost predicate CallOk(u: Universe, site: Site) {
    site in u.calls ==>
      && site.0 in u.jobs && site.0 in u.graphs
      && KindOf(u.graphs[site.0], site.1) == Await && site.1 != u.graphs[site.0].trigger
      && site.1 in u.jobs[site.0].handed && Count(u.jobs[site.0], site.1).exits == 1
      && (!IsTold(u, site) ==> Held(u.graphs[site.0], u.jobs[site.0], site.1))
  }

  ghost predicate ChildOk(u: Universe, c: Jid) {
    c in u.parent ==> IsRequested(u, u.parent[c])
  }

  ghost predicate UniverseInv(u: Universe) {
    && (forall j {:trigger JobOk(u, j)} :: JobOk(u, j))
    && (forall site {:trigger CallOk(u, site)} :: CallOk(u, site))
    && (forall c {:trigger ChildOk(u, c)} :: ChildOk(u, c))
  }

  /* ---------- what a job's own step does to its await activities ---------- */

  lemma StaysHanded(g: Graph, w: World, e: Event, a: Aid)
    requires RootedTree(g) && Inv(g, w) && Enabled(g, w, e) && e != CreateJob
    requires a in w.handed && Count(w, a).exits == 1 && a != g.trigger
    ensures a in After(g, w, e).handed && Count(After(g, w, e), a).exits == 1
  {
    LiveStep(g, w, e);
    StepKeepsInv(g, w, e);
    assert ActivityInv(g, w, a) && ActivityInv(g, After(g, w, e), a);
    CountsOf(g, w, e, a);
  }

  /** A leg-1 exit, once counted, stays counted for an activity that was handed on. */
  lemma CountsOf(g: Graph, w: World, e: Event, a: Aid)
    requires RootedTree(g) && Inv(g, w) && Enabled(g, w, e) && e != CreateJob
    requires a in w.handed && a != g.trigger
    ensures Count(w, a).exits <= Count(After(g, w, e), a).exits
  {
    if e.EnterLeg? || e.ReenterLeg? {
      AttemptsCount(g, w, e, a);
    } else if e.CommitPlain? || e.CommitDone? {
      ClosingCounts(g, w, e, a);
    } else if e.CommitPending? || e.CommitWaiting? {
      HoldingCounts(g, w, e, a);
    } else if e.StartJob? {
      FreshForStart(g, w, e.chosen);
    } else {
      assert After(g, w, e).counts == w.counts;
    }
  }

  lemma AttemptsCount(g: Graph, w: World, e: Event, a: Aid)
    requires Enabled(g, w, e) && (e.EnterLeg? || e.ReenterLeg?)
    ensures Count(w, a).exits <= Count(After(g, w, e), a).exits
  {
  }

  lemma ClosingCounts(g: Graph, w: World, e: Event, a: Aid)
    requires RootedTree(g) && Inv(g, w) && Enabled(g, w, e) && (e.CommitPlain? || e.CommitDone?) && a in w.handed
    ensures Count(w, a).exits <= Count(After(g, w, e), a).exits
  {
    FreshChildren(g, w, e.a, e.chosen);
    CloseCounts(w, e.a, EarlyCompletion, e.chosen, a);
    CloseCounts(w, e.a, Completion, e.chosen, a);
  }

  lemma CloseCounts(w: World, b: Aid, step: LedgerStep, chosen: set<Aid>, a: Aid)
    requires b !in chosen && a !in chosen
    ensures Count(w, a).exits <= Count(Close(w, b, step, chosen), a).exits
  {
    hide Close, Count;
    CloseLedgerOf(w, b, step, chosen, a);
  }

  lemma HoldingCounts(g: Graph, w: World, e: Event, a: Aid)
    requires RootedTree(g) && Inv(g, w) && Enabled(g, w, e) && (e.CommitPending? || e.CommitWaiting?) && a in w.handed
    ensures Count(w, a).exits <= Count(After(g, w, e), a).exits
  {
    var step := if e.CommitPending? then Continuation else AuthorizeReentry;
    var chosen := if e.CommitPending? then e.chosen else {};
    FreshChildren(g, w, e.a, chosen);
    HoldLedgerOf(w, e.a, step, chosen, a);
    assert After(g, w, e) == Hold(w, e.a, step, chosen);
  }

  lemma FreshForStart(g: Graph, w: World, chosen: set<Aid>)
    requires RootedTree(g) && JobInv(g, w) && Enabled(g, w, StartJob(chosen))
    ensures w.handed == {g.trigger}
  {
  }

  /** An await activity that is live is left alone by every step but its own re-entry. */
  lemma StaysHeld(g: Graph, w: World, e: Event, a: Aid)
    requires RootedTree(g) && Inv(g, w) && Enabled(g, w, e) && e != CreateJob && e != ReenterLeg(a)
    requires Held(g, w, a) && Count(w, a).exits == 1 && a != g.trigger
    ensures Held(g, After(g, w, e), a)
  {
    LiveStep(g, w, e);
    assert ActivityInv(g, w, a);
    LegsOf(g, w, e, a);
  }

  lemma LegsOf(g: Graph, w: World, e: Event, a: Aid)
    requires Enabled(g, w, e) && e != ReenterLeg(a) && !InLeg(w, a, Two)
    ensures !InLeg(After(g, w, e), a, Two)
  {
    match e
    case EnterLeg(b) => AttemptLegs(w, b, Enter, One, Passes(w, b, Enter, One), a);
    case ReenterLeg(b) => AttemptLegs(w, b, Reenter, Two, Passes(w, b, Reenter, Two), a);
    case CommitPlain(b, chosen) =>
    case CommitDone(b, chosen) =>
    case CommitPending(b, chosen) =>
    case _ =>
  }

  lemma AttemptLegs(w: World, b: Aid, step: LedgerStep, leg: Leg, pass: bool, a: Aid)
    requires !InLeg(w, a, Two) && (leg == Two ==> a != b)
    ensures !InLeg(Attempt(w, b, step, leg, pass), a, Two)
  {
  }

  /* ---------- every happening keeps the invariant ---------- */

  lemma NoneInv()
    ensures UniverseInv(NONE)
  {
  }

  lemma CreatedInv(g: Graph)
    requires RootedTree(g)
    ensures Inv(g, CREATED(g)) && CREATED(g).ran == 0
  {
    EmptyInv(g);
    CreateKeepsInv(g, EMPTY);
    assert After(g, EMPTY, CreateJob) == CREATED(g);
  }

  lemma NewJobKeeps(u: Universe, j: Jid, g: Graph)
    requires UniverseInv(u) && May(u, NewJob(j, g))
    ensures UniverseInv(Then(u, NewJob(j, g)))
  {
    var u' := Then(u, NewJob(j, g));
    CreatedInv(g);
    forall k ensures JobOk(u', k) {
      assert JobOk(u, k);
    }
    forall site ensures CallOk(u', site) {
      assert CallOk(u, site) && JobOk(u, j);
      if IsTold(u, site) {
        StaysTold(u, u', site);
      }
    }
    forall c ensures ChildOk(u', c) {
      assert ChildOk(u, c);
    }
  }

  lemma SpawnKeeps(u: Universe, site: Site, child: Jid, g: Graph)
    requires UniverseInv(u) && May(u, Spawn(site, child, g))
    ensures UniverseInv(Then(u, Spawn(site, child, g)))
  {
    var u' := Then(u, Spawn(site, child, g));
    CreatedInv(g);
    assert JobOk(u, child) && CallOk(u, site);
    forall k ensures JobOk(u', k) {
      assert JobOk(u, k);
    }
    forall s ensures CallOk(u', s) {
      assert CallOk(u, s);
      if IsTold(u, s) {
        StaysTold(u, u', s);
      }
    }
    forall c ensures ChildOk(u', c) {
      assert ChildOk(u, c);
    }
  }

  /** What has been published stays published. */
  lemma StaysTold(u: Universe, u': Universe, site: Site)
    requires IsTold(u, site) && u.errors <= u'.errors && u.sent <= u'.sent
    requires forall c :: c in u.parent ==> c in u'.parent && u'.parent[c] == u.parent[c]
    ensures IsTold(u', site)
  {
    if site !in u.errors {
      var c :| IsChild(u, c, site) && u.sent[c] > 0;
      assert IsChild(u', c, site) && u'.sent[c] > 0;
    }
  }

  lemma CallChangeKeeps(u: Universe, site: Site, h: Happening)
    requires UniverseInv(u) && May(u, h) && (h.Ask? || h.LoseCall? || h.Refuse? || h.Complain?) && h.site == site
    ensures UniverseInv(Then(u, h))
  {
    var u' := Then(u, h);
    forall k ensures JobOk(u', k) {
      assert JobOk(u, k);
    }
    forall s ensures CallOk(u', s) {
      assert CallOk(u, s);
      if IsTold(u, s) {
        StaysTold(u, u', s);
      }
    }
    forall c ensures ChildOk(u', c) {
      assert ChildOk(u, c);
    }
  }

  lemma RanAndStatus(g: Graph, w: World, e: Event)
    requires Enabled(g, w, e)
    ensures After(g, w, e).ran == w.ran + if e.RunCompletionTasks? then 1 else 0
    ensures w.hash.status.Some? ==> After(g, w, e).hash.status.Some?
  {
    if e.EnterLeg? || e.ReenterLeg? {
      AttemptsKeepRest(g, w, e);
      AttemptsKeepStatus(g, w, e);
    }
  }

  lemma AttemptsKeepStatus(g: Graph, w: World, e: Event)
    requires Enabled(g, w, e) && (e.EnterLeg? || e.ReenterLeg?)
    ensures After(g, w, e).hash.status == w.hash.status
  {
  }

  lemma MovedJobs(u: Universe, j: Jid, e: Event, w': World, k: Jid)
    requires UniverseInv(u) && j in u.jobs && j in u.graphs
    requires Inv(u.graphs[j], w') && w'.hash.status.Some?
    requires w'.ran == u.jobs[j].ran + if e.RunCompletionTasks? then 1 else 0
    ensures JobOk(Moved(u, j, e, w'), k)
  {
    assert JobOk(u, j) && JobOk(u, k);
  }

  lemma LocalJobs(u: Universe, j: Jid, e: Event, k: Jid)
    requires UniverseInv(u) && May(u, Local(j, e))
    ensures JobOk(Then(u, Local(j, e)), k)
  {
    assert JobOk(u, j);
    StepKeepsInv(u.graphs[j], u.jobs[j], e);
    RanAndStatus(u.graphs[j], u.jobs[j], e);
    MovedJobs(u, j, e, After(u.graphs[j], u.jobs[j], e), k);
  }

  /** A waiting commit of an await activity starts a call. */
  lemma CallBegins(g: Graph, w: World, a: Aid)
    requires RootedTree(g) && Inv(g, w) && Enabled(g, w, CommitWaiting(a))
    ensures var w' := After(g, w, CommitWaiting(a));
            a in w'.handed && Count(w', a).exits == 1 && Held(g, w', a) && a != g.trigger
    ensures Count(w, a).exits == 0
  {
    InLegIsLive(g, w, a);
    HoldLedgerOf(w, a, AuthorizeReentry, {}, a);
  }

  lemma LocalCallsHere(u: Universe, j: Jid, e: Event, site: Site)
    requires UniverseInv(u) && May(u, Local(j, e)) && site.0 == j && site in u.calls
    ensures var w' := After(u.graphs[j], u.jobs[j], e);
            && site.1 in w'.handed && Count(w', site.1).exits == 1
            && (!IsTold(u, site) ==> Held(u.graphs[j], w', site.1))
  {
    assert JobOk(u, j) && CallOk(u, site);
    var g, w := u.graphs[j], u.jobs[j];
    StaysHanded(g, w, e, site.1);
    if !IsTold(u, site) {
      StaysHeld(g, w, e, site.1);
    }
  }

  lemma MovedCalls(u: Universe, j: Jid, e: Event, w': World, site: Site)
    requires UniverseInv(u) && j in u.jobs && j in u.graphs
    requires site.0 == j && site in u.calls ==>
      && site.1 in w'.handed && Count(w', site.1).exits == 1
      && (!IsTold(u, site) ==> Held(u.graphs[j], w', site.1))
    requires e.CommitWaiting? && KindOf(u.graphs[j], e.a) == Await && site == (j, e.a) ==>
      && e.a in w'.handed && Count(w', e.a).exits == 1 && Held(u.graphs[j], w', e.a)
      && e.a != u.graphs[j].trigger
    ensures CallOk(Moved(u, j, e, w'), site)
  {
    assert CallOk(u, site);
    if IsTold(u, site) {
      StaysTold(u, Moved(u, j, e, w'), site);
    }
  }

  lemma LocalCalls(u: Universe, j: Jid, e: Event, site: Site)
    requires UniverseInv(u) && May(u, Local(j, e))
    ensures CallOk(Then(u, Local(j, e)), site)
  {
    assert JobOk(u, j) && CallOk(u, site);
    var g, w := u.graphs[j], u.jobs[j];
    if site.0 == j && site in u.calls {
      LocalCallsHere(u, j, e, site);
    }
    if e.CommitWaiting? && KindOf(g, e.a) == Await && site == (j, e.a) {
      CallBegins(g, w, e.a);
    }
    MovedCalls(u, j, e, After(g, w, e), site);
  }

  /** An activity that commits to wait has no call yet. */
  lemma CallIsNew(u: Universe, j: Jid, a: Aid)
    requires UniverseInv(u) && May(u, Local(j, CommitWaiting(a)))
    ensures (j, a) !in u.calls
  {
    assert JobOk(u, j) && CallOk(u, (j, a));
    CallBegins(u.graphs[j], u.jobs[j], a);
  }

  lemma LocalChildren(u: Universe, j: Jid, e: Event, c: Jid)
    requires UniverseInv(u) && May(u, Local(j, e))
    ensures ChildOk(Then(u, Local(j, e)), c)
  {
    assert ChildOk(u, c);
    if e.CommitWaiting? {
      CallIsNew(u, j, e.a);
    }
  }

  lemma HappeningKeepsInv(u: Universe, h: Happening)
    requires UniverseInv(u) && May(u, h)
    ensures UniverseInv(Then(u, h))
  {
    match h
    case NewJob(j, g) => NewJobKeeps(u, j, g);
    case Spawn(site, child, g) => SpawnKeeps(u, site, child, g);
    case Ask(site) => CallChangeKeeps(u, site, h);
    case Refuse(site, child, told) => CallChangeKeeps(u, site, h);
    case Complain(site) => CallChangeKeeps(u, site, h);
    case LoseCall(site) => CallChangeKeeps(u, site, h);
    case Local(j, e) =>
      var u' := Then(u, h);
      forall k ensures JobOk(u', k) {
        LocalJobs(u, j, e, k);
      }
      forall site ensures CallOk(u', site) {
        LocalCalls(u, j, e, site);
      }
      forall c ensures ChildOk(u', c) {
        LocalChildren(u, j, e, c);
      }
  }

  /* ---------- whole runs ---------- */

  datatype History = History(universes: seq<Universe>, happenings: seq<Happening>)

  ghost predicate HappensAt(t: History, i: nat) {
    i < |t.happenings| && i + 1 < |t.universes|
    && May(t.universes[i], t.happenings[i]) && t.universes[i + 1] == Then(t.universes[i], t.happenings[i])
  }

  ghost predicate IsHistory(t: History) {
    && |t.universes| == |t.happenings| + 1 && t.universes[0] == NONE
    && forall i {:trigger HappensAt(t, i)} :: 0 <= i < |t.happenings| ==> HappensAt(t, i)
  }

  lemma {:induction false} HistoryKeepsInv(t: History, i: nat)
    requires IsHistory(t) && i < |t.universes|
    ensures UniverseInv(t.universes[i])
  {
    if i == 0 {
      NoneInv();
    } else {
      HistoryKeepsInv(t, i - 1);
      assert HappensAt(t, i - 1);
      HappeningKeepsInv(t.universes[i - 1], t.happenings[i - 1]);
    }
  }

  ghost predicate Unfinished(u: Universe, j: Jid) {
    j in u.jobs && u.jobs[j].ran == 0
  }

  /** Each spawned job publishes exactly one result, by the time its completion tasks have run, however many
      jobs its request has spawned; a job without a parent publishes none. */
  lemma OneResultPerChild(t: History, n: nat, c: Jid)
    requires IsHistory(t) && n < |t.universes|
    ensures var u := t.universes[n];
            u.sent[c] == (if c in u.parent && c in u.jobs then u.jobs[c].ran else 0) <= 1
  {
    HistoryKeepsInv(t, n);
    assert JobOk(t.universes[n], c);
  }

  /** Until a result or an error has been published for it, an await activity stays live, whatever its engines and
      the jobs it spawned do, and its job has a positive semaphore. */
  lemma ParentStaysOpen(t: History, n: nat, site: Site)
    requires IsHistory(t) && n < |t.universes| && site in t.universes[n].calls && !IsTold(t.universes[n], site)
    ensures var u := t.universes[n];
            && Unfinished(u, site.0) && site.1 in u.jobs[site.0].live
            && u.jobs[site.0].hash.status.Some? && u.jobs[site.0].hash.status.value >= 1
  {
    HistoryKeepsInv(t, n);
    OpenWhileHeld(t.universes[n], site);
  }

  lemma OpenWhileHeld(u: Universe, site: Site)
    requires UniverseInv(u) && site in u.calls && !IsTold(u, site)
    ensures Unfinished(u, site.0) && site.1 in u.jobs[site.0].live
    ensures u.jobs[site.0].hash.status.Some? && u.jobs[site.0].hash.status.value >= 1
  {
    assert CallOk(u, site) && JobOk(u, site.0);
  }

  /* ---------- nested jobs finish from the inside out ---------- */

  /** `chain[0]` was spawned by an activity of `chain[1]`, that by one of `chain[2]`, and so on. */
  ghost predicate IsLineage(u: Universe, chain: seq<Jid>) {
    forall i :: 0 <= i < |chain| - 1 ==> chain[i] in u.parent && u.parent[chain[i]].0 == chain[i + 1]
  }

  /** While a job is unfinished, every job enclosing it, however deep the nesting, has a positive semaphore and is
      unfinished too. */
  ghost predicate NestedAt(u: Universe, chain: seq<Jid>) {
    IsLineage(u, chain) && |chain| > 0 && Unfinished(u, chain[0]) ==>
      forall i {:trigger chain[i]} :: 0 <= i < |chain| ==>
        && Unfinished(u, chain[i])
        && (i > 0 ==> u.jobs[chain[i]].hash.status.Some? && u.jobs[chain[i]].hash.status.value >= 1)
  }

  /** What is known of the messages to and from an await activity: whether the refusal of a second leg-1 entry may be
      told to it, whether its request can be processed only once, whether the refusal of a request may be told to it,
      and which job ids its children may get. */
  datatype Rules = Rules(again: Site -> bool, once: Site -> bool, told: Site -> bool, ids: (Site, Jid) -> bool)

  ghost predicate Obeys(u: Universe, h: Happening, rules: Rules) {
    match h
    case Spawn(site, child, _) => rules.ids(site, child) && (rules.once(site) ==> Tries(u, site) == 0)
    case Refuse(site, child, told) =>
      rules.ids(site, child) && (told ==> rules.told(site)) && (rules.once(site) ==> Tries(u, site) == 0)
    case Complain(site) => rules.again(site)
    case _ => true
  }

  function Tries(u: Universe, site: Site): nat {
    if IsRequested(u, site) then u.calls[site].tries else 0
  }

  ghost predicate Follows(t: History, rules: Rules) {
    IsHistory(t) && forall i {:trigger t.happenings[i]} :: 0 <= i < |t.happenings| ==>
        Obeys(t.universes[i], t.happenings[i], rules)
  }

  /** In every history under these rules, jobs finish from the inside out. */
  ghost predicate InsideOut(rules: Rules) {
    forall t: History, n: nat, chain: seq<Jid> {:trigger NestedAt(t.universes[n], chain), Follows(t, rules)} ::
      Follows(t, rules) && n < |t.universes| ==> NestedAt(t.universes[n], chain)
  }

  /** The activity can have a child at all. */
  ghost predicate MaySpawn(rules: Rules, site: Site) {
    exists c {:trigger rules.ids(site, c)} :: rules.ids(site, c) && c != site.0
  }

  /** No second leg-1 entry is told of, and a request that can be processed again neither spawns a second job nor fails
      for the first one's sake: its child has one id, and no refusal is told. */
  ghost predicate Safe(rules: Rules, site: Site) {
    MaySpawn(rules, site) ==>
      && !rules.again(site)
      && (rules.once(site) || !rules.told(site))
      && (rules.once(site) || forall c, d {:trigger rules.ids(site, c), rules.ids(site, d)} ::
            rules.ids(site, c) && rules.ids(site, d) && c != site.0 && d != site.0 ==> c == d)
  }

  /** What the rules make of an activity's children. */
  ghost predicate SiteOk(u: Universe, rules: Rules, site: Site) {
    && (forall c {:trigger IsChild(u, c, site)} :: IsChild(u, c, site) ==>
          rules.ids(site, c) && c != site.0 && c in u.jobs && Tries(u, site) >= 1)
    && (site in u.errors && !rules.again(site) ==> rules.told(site) && Tries(u, site) >= 1)
    && (rules.once(site) ==> Tries(u, site) <= 1 && OneOutcome(u, rules, site))
  }

  /** The activity has one child, or has been told that its request was refused, or neither. */
  ghost predicate OneOutcome(u: Universe, rules: Rules, site: Site) {
    && (forall c, d {:trigger IsChild(u, c, site), IsChild(u, d, site)} ::
          IsChild(u, c, site) && IsChild(u, d, site) ==> c == d)
    && (site in u.errors && !rules.again(site) ==> forall c :: !IsChild(u, c, site))
  }

  lemma SpawnKeepsSite(u: Universe, at: Site, child: Jid, g: Graph, rules: Rules, site: Site)
    requires UniverseInv(u) && May(u, Spawn(at, child, g)) && Obeys(u, Spawn(at, child, g), rules)
        && SiteOk(u, rules, site)
    ensures SiteOk(Then(u, Spawn(at, child, g)), rules, site)
  {
    var u' := Then(u, Spawn(at, child, g));
    assert CallOk(u, at) && JobOk(u, child);
    assert child != at.0 && u'.errors == u.errors && u'.parent == u.parent[child := at] && child !in u.parent;
    assert u.jobs.Keys <= u'.jobs.Keys && child in u'.jobs;
    assert Tries(u', site) == if site == at then Tries(u, at) + 1 else Tries(u, site);
    hide UniverseInv, CallOk, JobOk, ChildOk, Then, May, Tries;
    assert forall c :: IsChild(u', c, site) <==> IsChild(u, c, site) || (c == child && site == at);
  }

  lemma RefuseKeepsSite(u: Universe, at: Site, child: Jid, told: bool, rules: Rules, site: Site)
    requires May(u, Refuse(at, child, told)) && Obeys(u, Refuse(at, child, told), rules) && SiteOk(u, rules, site)
    ensures SiteOk(Then(u, Refuse(at, child, told)), rules, site)
  {
    var u' := Then(u, Refuse(at, child, told));
    assert forall c :: IsChild(u', c, site) <==> IsChild(u, c, site);
  }

  lemma StepKeepsSite(u: Universe, h: Happening, rules: Rules, site: Site)
    requires UniverseInv(u) && May(u, h) && Obeys(u, h, rules) && SiteOk(u, rules, site)
    ensures SiteOk(Then(u, h), rules, site)
  {
    match h
    case Local(j, e) => LocalKeepsSite(u, j, e, rules, site);
    case Spawn(at, child, g) => SpawnKeepsSite(u, at, child, g, rules, site);
    case Refuse(at, child, told) => RefuseKeepsSite(u, at, child, told, rules, site);
    case _ =>
      assert forall c :: IsChild(Then(u, h), c, site) <==> IsChild(u, c, site);
  }

  lemma LocalLeavesCalls(u: Universe, j: Jid, e: Event, site: Site)
    requires UniverseInv(u) && May(u, Local(j, e))
    ensures var u' := Then(u, Local(j, e));
      u'.parent == u.parent && u'.errors == u.errors && u.jobs.Keys <= u'.jobs.Keys && Tries(u', site) == Tries(u, site)
  {
    if e.CommitWaiting? {
      CallIsNew(u, j, e.a);
    }
    hide UniverseInv, Enabled, After;
  }

  lemma LocalKeepsSite(u: Universe, j: Jid, e: Event, rules: Rules, site: Site)
    requires UniverseInv(u) && May(u, Local(j, e)) && SiteOk(u, rules, site)
    ensures SiteOk(Then(u, Local(j, e)), rules, site)
  {
    hide UniverseInv, May, Then, Tries;
    LocalLeavesCalls(u, j, e, site);
    var u' := Then(u, Local(j, e));
    assert forall c :: IsChild(u', c, site) <==> IsChild(u, c, site);
  }

  lemma {:induction false} HistoryKeepsSite(t: History, rules: Rules, n: nat, site: Site)
    requires Follows(t, rules) && n < |t.universes|
    ensures SiteOk(t.universes[n], rules, site)
  {
    if n > 0 {
      HistoryKeepsSite(t, rules, n - 1, site);
      HistoryKeepsInv(t, n - 1);
      assert HappensAt(t, n - 1);
      assert Obeys(t.universes[n - 1], t.happenings[n - 1], rules);
      StepKeepsSite(t.universes[n - 1], t.happenings[n - 1], rules, site);
    }
  }

  /** Under safe rules an activity is told nothing while a job it spawned is unfinished. */
  lemma ToldOnlyByFinished(t: History, rules: Rules, n: nat, c: Jid)
    requires Follows(t, rules) && n < |t.universes| && c in t.universes[n].parent && Unfinished(t.universes[n], c)
    requires Safe(rules, t.universes[n].parent[c])
    ensures t.universes[n].parent[c] in t.universes[n].calls && !IsTold(t.universes[n], t.universes[n].parent[c])
  {
    var u := t.universes[n];
    var site := u.parent[c];
    HistoryKeepsSite(t, rules, n, site);
    assert IsChild(u, c, site) && MaySpawn(rules, site);
    forall d | IsChild(u, d, site) ensures u.sent[d] == 0 {
      assert d == c;
      OneResultPerChild(t, n, c);
    }
  }

  lemma {:induction false} EnclosingJobsStayOpen(t: History, rules: Rules, n: nat, chain: seq<Jid>, i: nat)
    requires Follows(t, rules) && n < |t.universes| && forall site :: Safe(rules, site)
    requires var u := t.universes[n]; IsLineage(u, chain) && i < |chain| && Unfinished(u, chain[0])
    ensures var u := t.universes[n];
            && Unfinished(u, chain[i])
            && (i > 0 ==> u.jobs[chain[i]].hash.status.Some? && u.jobs[chain[i]].hash.status.value >= 1)
  {
    if i > 0 {
      EnclosingJobsStayOpen(t, rules, n, chain, i - 1);
      ToldOnlyByFinished(t, rules, n, chain[i - 1]);
      ParentStaysOpen(t, n, t.universes[n].parent[chain[i - 1]]);
    }
  }

  lemma SafeRulesSuffice(rules: Rules)
    requires forall site :: Safe(rules, site)
    ensures InsideOut(rules)
  {
    forall t: History, n: nat, chain: seq<Jid> | Follows(t, rules) && n < |t.universes|
      ensures NestedAt(t.universes[n], chain)
    {
      var u := t.universes[n];
      if IsLineage(u, chain) && |chain| > 0 && Unfinished(u, chain[0]) {
        forall i | 0 <= i < |chain|
          ensures Unfinished(u, chain[i])
          ensures i > 0 ==> u.jobs[chain[i]].hash.status.Some? && u.jobs[chain[i]].hash.status.value >= 1
        {
          EnclosingJobsStayOpen(t, rules, n, chain, i);
        }
      }
    }
  }
}
