/** Which version of an app an engine runs, while versions are deployed and activated under it. */
module Versions {
  import opened Options

  type Version = string
  type EngineId = string

  datatype CacheMode = Cache | NoCache
  datatype Deployment = Deployed | Activated

  /** The app as stored: `version` is what a reader of the store gets. */
  datatype AppRecord = AppRecord(version: Version, versions: map<Version, Deployment>)

  /** An engine's copy, and until when it must not be used. */
  datatype Engine = Engine(cacheMode: CacheMode, untilVersion: Option<Version>, apps: Option<Version>)

  datatype World = World(app: AppRecord, engines: map<EngineId, Engine>)

  datatype Step =
    | Deploy(v: Version)                       // setApp: the stored version changes before anyone is told
    | Activate(v: Version)                     // activateAppVersion
    | Join(e: EngineId)
    | Told(e: EngineId, v: Version)            // the activate message arrives
    | Ask(e: EngineId, vid: Option<Version>)   // getVID

  predicate Enabled(w: World, s: Step) {
    match s
    case Deploy(v) => true
    case Activate(v) => v in w.app.versions
    case Join(e) => e !in w.engines
    case Told(e, v) => e in w.engines
    case Ask(e, vid) => e in w.engines
  }

  /** What getVID answers, and the engine afterwards. */
  function GetVID(app: AppRecord, engine: Engine, vid: Option<Version>): (Option<Version>, Engine) {
    if engine.cacheMode == NoCache then
      (Some(app.version),
       if Some(app.version) == engine.untilVersion then Engine(Cache, Some(app.version), Some(app.version)) else engine)
    else if engine.apps.None? && vid.Some? then
      (vid, engine.(apps := vid))
    else
      (engine.apps, engine)
  }

  function After(w: World, s: Step): World
    requires Enabled(w, s)
  {
    match s
    case Deploy(v) => w.(app := AppRecord(v, w.app.versions[v := Deployed]))
    case Activate(v) => w.(app := AppRecord(v, w.app.versions[v := Activated]))
    case Join(e) => w.(engines := w.engines[e := Engine(Cache, None, None)])
    case Told(e, v) => w.(engines := w.engines[e := w.engines[e].(cacheMode := NoCache, untilVersion := Some(v))])
    case Ask(e, vid) => w.(engines := w.engines[e := GetVID(w.app, w.engines[e], vid).1])
  }

  function Answer(w: World, s: Step): Option<Version>
    requires s.Ask? && Enabled(w, s)
  {
    GetVID(w.app, w.engines[s.e], s.vid).0
  }

  /* ---------- runs ---------- */

  datatype Trace = Trace(worlds: seq<World>, steps: seq<Step>)

  predicate StepAt(t: Trace, i: nat) {
    i < |t.steps| && i + 1 < |t.worlds| && Enabled(t.worlds[i], t.steps[i])
        && t.worlds[i + 1] == After(t.worlds[i], t.steps[i])
  }

  ghost predicate IsRun(t: Trace) {
    |t.worlds| == |t.steps| + 1 && forall i {:trigger StepAt(t, i)} :: 0 <= i < |t.steps| ==> StepAt(t, i)
  }

  /** Exactly what has been deployed can be activated, however long ago that was. */
  lemma {:induction false} ActivatableExactly(t: Trace, n: nat, v: Version)
    requires IsRun(t) && n < |t.worlds|
    ensures Enabled(t.worlds[n], Activate(v)) <==>
      v in t.worlds[0].app.versions || exists i {:trigger t.steps[i]} :: 0 <= i < n && t.steps[i] == Deploy(v)
  {
    if n > 0 {
      ActivatableExactly(t, n - 1, v);
      assert StepAt(t, n - 1);
    }
  }

  /** The only version written to the store between two moments is `v`. */
  ghost predicate OnlyWrites(t: Trace, start: nat, end: nat, v: Version) {
    forall i {:trigger StepAt(t, i)} :: start <= i < end && StepAt(t, i) ==>
      (t.steps[i].Deploy? || t.steps[i].Activate? ==> t.steps[i].v == v)
  }

  /** The engine waits for `v`: it reads the store, or has a copy of `v`, which is what the store holds. */
  predicate Settled(w: World, e: EngineId, v: Version) {
    && e in w.engines && w.engines[e].untilVersion == Some(v)
    && (w.engines[e].cacheMode == Cache ==> w.engines[e].apps == Some(v) && w.app.version == v)
  }

  lemma StepStaysSettled(w: World, s: Step, e: EngineId, v: Version)
    requires Enabled(w, s) && Settled(w, e, v)
    requires s.Deploy? || s.Activate? ==> s.v == v
    requires s.Told? ==> s.e != e || s.v == v
    ensures Settled(After(w, s), e, v)
  {
  }

  /** No other activation is announced to the engine meanwhile. */
  ghost predicate OnlyTold(t: Trace, start: nat, end: nat, e: EngineId, v: Version) {
    forall i {:trigger StepAt(t, i)} :: start <= i < end && StepAt(t, i) ==>
        (t.steps[i].Told? && t.steps[i].e == e ==> t.steps[i].v == v)
  }

  lemma {:induction false} ToldStaysSettled(t: Trace, start: nat, end: nat, e: EngineId, v: Version)
    requires IsRun(t) && start < end < |t.worlds| && t.steps[start] == Told(e, v)
    requires OnlyWrites(t, start, end, v) && OnlyTold(t, start, end, e, v)
    ensures Settled(t.worlds[end], e, v)
    decreases end
  {
    assert StepAt(t, end - 1);
    if start < end - 1 {
      ToldStaysSettled(t, start, end - 1, e, v);
      StepStaysSettled(t.worlds[end - 1], t.steps[end - 1], e, v);
    }
  }

  /** From the moment an engine handles the activation of `v`, and as long as nothing but `v` is written or announced
      to it, every answer it gives is the version stored at that time; */
  lemma AnswersAreCurrent(t: Trace, start: nat, end: nat, e: EngineId, v: Version)
    requires IsRun(t) && start < end < |t.steps| && t.steps[start] == Told(e, v) && t.steps[end].Ask?
        && t.steps[end].e == e
    requires OnlyWrites(t, start, end, v) && OnlyTold(t, start, end, e, v)
    ensures Enabled(t.worlds[end], t.steps[end])
        && Answer(t.worlds[end], t.steps[end]) == Some(t.worlds[end].app.version)
  {
    ToldStaysSettled(t, start, end, e, v);
    assert StepAt(t, end);
  }

  /** which is `v`, if `v` was stored when the message came or has been written since. */
  lemma {:induction false} StoredIsWritten(t: Trace, start: nat, end: nat, v: Version)
    requires IsRun(t) && start <= end < |t.worlds| && OnlyWrites(t, start, end, v)
    requires t.worlds[start].app.version == v
      || exists i {:trigger StepAt(t, i)} :: start <= i < end && StepAt(t, i)
          && (t.steps[i].Deploy? || t.steps[i].Activate?)
    ensures t.worlds[end].app.version == v
    decreases end
  {
    if start < end {
      assert StepAt(t, end - 1);
      if !t.steps[end - 1].Deploy? && !t.steps[end - 1].Activate? {
        StoredIsWritten(t, start, end - 1, v);
      }
    }
  }

  /** So any two engines that have handled the activation agree, whenever they are asked. */
  lemma EnginesAgree(t: Trace, start: nat, a: nat, b: nat, i: nat, j: nat, d: EngineId, e: EngineId, v: Version)
    requires IsRun(t) && start <= a < i < |t.steps| && start <= b < j < |t.steps|
    requires t.steps[a] == Told(d, v) && t.steps[b] == Told(e, v)
    requires t.steps[i].Ask? && t.steps[i].e == d && t.steps[j].Ask? && t.steps[j].e == e
    requires t.worlds[start].app.version == v && OnlyWrites(t, start, i, v) && OnlyWrites(t, start, j, v)
    requires OnlyTold(t, a, i, d, v) && OnlyTold(t, b, j, e, v)
    ensures StepAt(t, i) && StepAt(t, j)
    ensures Answer(t.worlds[i], t.steps[i]) == Answer(t.worlds[j], t.steps[j]) == Some(v)
  {
    assert StepAt(t, i) && StepAt(t, j);
    StoredIsWritten(t, start, i, v);
    StoredIsWritten(t, start, j, v);
    AnswersAreCurrent(t, a, i, d, v);
    AnswersAreCurrent(t, b, j, e, v);
  }

  /** An engine goes back to its copy only by being asked, when the store holds what it was told to wait for. */
  lemma ReturnsToCacheOnlyOnReading(w: World, s: Step, e: EngineId)
    requires Enabled(w, s) && e in w.engines && w.engines[e].cacheMode == NoCache
        && After(w, s).engines[e].cacheMode == Cache
    ensures s.Ask? && s.e == e && w.engines[e].untilVersion == Some(w.app.version)
    ensures Answer(w, s) == Some(w.app.version) == After(w, s).engines[e].apps
  {
  }

  /** Without the message a copy goes stale: an engine that was settled answers the old version once another is
      deployed. */
  lemma DeploymentLeavesCopiesStale(w: World, e: EngineId, v: Version, next: Version)
    requires Settled(w, e, v) && w.engines[e].cacheMode == Cache && next != w.app.version
    ensures var w' := After(w, Deploy(next));
      Answer(w', Ask(e, None)) == Some(w.app.version) && w'.app.version == next
  {
  }
}
