/** Activating a version: three roll calls among the engines, the announcement, and the write. The engine's own part
    is `getVID`, in the form of its object. */
module Quorum {
  import opened Options
  import opened Versions

  datatype Message =
    | ActivateMessage(untilVersion: Version)
    | Ping(originator: string)
    | Pong(guid: string, originator: string)
    | Other

  /** The answers to one engine's roll call among the messages of a while. */
  function Pongs(guid: string, messages: seq<Message>): nat {
    if |messages| == 0 then 0 else
      var last := messages[|messages| - 1];
      Pongs(guid, messages[..|messages| - 1]) + if last.Pong? && last.originator == guid then 1 else 0
  }

  /** The last version announced, if any. */
  function Announced(messages: seq<Message>, otherwise: Option<Version>): Option<Version> {
    if |messages| == 0 then otherwise else
      var last := messages[|messages| - 1];
      if last.ActivateMessage? then Some(last.untilVersion) else Announced(messages[..|messages| - 1], otherwise)
  }

  class StoreService {
    var app: AppRecord

    constructor (app: AppRecord)
      ensures this.app == app
    {
      this.app := app;
    }

    /** A deployment, as the step relation has it. */
    method SetApp(version: Version)
      modifies this
      ensures forall engines :: World(app, engines) == After(World(old(app), engines), Deploy(version))
      ensures app.version == version && version in app.versions
      ensures forall v :: v != version ==>
        && (v in app.versions <==> v in old(app).versions)
        && (v in app.versions ==> app.versions[v] == old(app).versions[v])
    {
      app := AppRecord(version, app.versions[version := Deployed]);
    }

    /** Only a version that has been deployed can be activated; once it has been, this succeeds. */
    method ActivateAppVersion(version: Version) returns (ok: bool)
      modifies this
      ensures ok <==> version in old(app).versions
      ensures app == if ok then AppRecord(version, old(app).versions[version := Activated]) else old(app)
      ensures ok ==> forall engines :: World(app, engines) == After(World(old(app), engines), Step.Activate(version))
    {
      ok := version in app.versions;
      if ok {
        app := AppRecord(version, app.versions[version := Activated]);
      }
    }
  }

  class EngineService {
    const store: StoreService
    var cacheMode: CacheMode
    var untilVersion: Option<Version>
    var apps: Option<Version>

    function Value(): Engine
      reads this
    {
      Engine(cacheMode, untilVersion, apps)
    }

    constructor (store: StoreService)
      ensures this.store == store && Value() == Engine(Cache, None, None)
    {
      this.store, cacheMode, untilVersion, apps := store, Cache, None, None;
    }

    method SetCacheMode(cacheMode: CacheMode, untilVersion: Version)
      modifies this`cacheMode, this`untilVersion
      ensures this.cacheMode == cacheMode && this.untilVersion == Some(untilVersion)
    {
      this.cacheMode := cacheMode;
      this.untilVersion := Some(untilVersion);
    }

    method GetVID(vid: Option<Version>) returns (version: Option<Version>)
      modifies this
      ensures (version, Value()) == Versions.GetVID(store.app, old(Value()), vid)
      ensures old(cacheMode) == NoCache ==>
        && version == Some(store.app.version)
        && (if old(untilVersion) == version then cacheMode == Cache && apps == version && untilVersion == version
            else cacheMode == NoCache && apps == old(apps) && untilVersion == old(untilVersion))
      ensures old(cacheMode) == Cache ==>
        && version == apps == (if old(apps).Some? then old(apps) else vid)
        && cacheMode == Cache && untilVersion == old(untilVersion)
    {
      if cacheMode == NoCache {
        var app := store.app;
        if untilVersion == Some(app.version) {
          apps := Some(app.version);
          SetCacheMode(Cache, app.version);
        }
        version := Some(app.version);
      } else if apps.None? && vid.Some? {
        apps := vid;
        version := vid;
      } else {
        version := apps;
      }
    }
  }

  datatype Outcome = Success | RollCallFailed | NotReceived | NoSuchVersion

  class QuorumService {
    const guid: string
    const engine: EngineService
    var quorum: Option<nat>

    constructor (guid: string, engine: EngineService)
      ensures this.guid == guid && this.engine == engine && quorum == None
    {
      this.guid, this.engine, quorum := guid, engine, None;
    }

    /** What arrives on the channel. Only answers to this engine's own roll call count. */
    method Handle(message: Message)
      modifies this, engine`cacheMode, engine`untilVersion
      ensures quorum == if message.Pong? && message.originator == guid then Some(old(quorum).Or(0) + 1) else old(quorum)
      ensures engine.untilVersion == if message.ActivateMessage? then Some(message.untilVersion)
          else old(engine.untilVersion)
      ensures engine.cacheMode == if message.ActivateMessage? then NoCache else old(engine.cacheMode)
    {
      if message.ActivateMessage? {
        engine.SetCacheMode(NoCache, message.untilVersion);
      } else if message.Pong? && message.originator == guid {
        quorum := Some(quorum.Or(0) + 1);
      }
    }

    method HandleAll(messages: seq<Message>)
      modifies this, engine`cacheMode, engine`untilVersion
      ensures Pongs(guid, messages) > 0 ==> quorum == Some(old(quorum).Or(0) + Pongs(guid, messages))
      ensures Pongs(guid, messages) == 0 ==> quorum == old(quorum)
      ensures engine.untilVersion == Announced(messages, old(engine.untilVersion))
      ensures engine.cacheMode == (if exists m :: m in messages && m.ActivateMessage? then NoCache
          else old(engine.cacheMode))
    {
      var i := 0;
      while i < |messages|
        invariant 0 <= i <= |messages|
        invariant quorum == if Pongs(guid, messages[..i]) > 0 then Some(old(quorum).Or(0) + Pongs(guid, messages[..i]))
            else old(quorum)
        invariant engine.untilVersion == Announced(messages[..i], old(engine.untilVersion))
        invariant engine.cacheMode == (if exists m :: m in messages[..i] && m.ActivateMessage? then NoCache
            else old(engine.cacheMode))
      {
        assert messages[..i + 1] == messages[..i] + [messages[i]];
        assert messages[..i + 1][..i] == messages[..i];
        Handle(messages[i]);
        i := i + 1;
      }
      assert messages[..i] == messages;
    }

    /** One roll call: returns the answers to the call before, and counts anew during the wait. */
    method RequestQuorum(arriving: seq<Message>) returns (q: Option<nat>)
      modifies this, engine`cacheMode, engine`untilVersion
      ensures q == old(quorum) && quorum == Some(Pongs(guid, arriving))
      ensures engine.untilVersion == Announced(arriving, old(engine.untilVersion))
    {
      q := quorum;
      quorum := Some(0);
      HandleAll(arriving);
    }

    /** `waits` are the messages arriving during the four roll calls, `last` those after the announcement. The
        version is written only if the first three roll calls had the same number of answers, not none, and this
        engine has itself been told to wait for the version. */
    method Activate(version: Version, waits: seq<seq<Message>>, last: seq<Message>)
      returns (outcome: Outcome, announced: bool)
      requires |waits| == 4
      modifies this, engine, engine.store
      ensures announced <==> Pongs(guid, waits[0]) == Pongs(guid, waits[1]) == Pongs(guid, waits[2]) != 0
      ensures outcome == RollCallFailed <==> !announced
      ensures outcome == NotReceived <==>
        announced && Announced(waits[0] + waits[1] + waits[2] + waits[3] + last,
            old(engine.untilVersion)) != Some(version)
      ensures outcome == NoSuchVersion ==> version !in old(engine.store.app).versions
      ensures outcome == Success ==> version in old(engine.store.app).versions
      ensures engine.store.app == if outcome == Success
        then AppRecord(version, old(engine.store.app).versions[version := Activated]) else old(engine.store.app)
    {
      hide Pongs;
      ghost var until := engine.untilVersion;
      var config := engine.GetVID(None);
      var q0 := RequestQuorum(waits[0]);
      var q1 := RequestQuorum(waits[1]);
      AnnouncedAppends(waits[0], waits[1], until);
      var q2 := RequestQuorum(waits[2]);
      AnnouncedAppends(waits[0] + waits[1], waits[2], until);
      var q3 := RequestQuorum(waits[3]);
      AnnouncedAppends(waits[0] + waits[1] + waits[2], waits[3], until);
      announced := q1.Some? && q1.value != 0 && q1 == q2 && q2 == q3;
      if !announced {
        return RollCallFailed, announced;
      }
      HandleAll(last);
      AnnouncedAppends(waits[0] + waits[1] + waits[2] + waits[3], last, until);
      if engine.untilVersion != Some(version) {
        return NotReceived, announced;
      }
      var ok := engine.store.ActivateAppVersion(version);
      outcome := if ok then Success else NoSuchVersion;
    }
  }

  lemma {:induction false} AnnouncedAppends(a: seq<Message>, b: seq<Message>, otherwise: Option<Version>)
    ensures Announced(a + b, otherwise) == Announced(b, Announced(a, otherwise))
    decreases |b|
  {
    if |b| == 0 {
      assert a + b == a;
    } else {
      assert (a + b)[..|a + b| - 1] == a + b[..|b| - 1];
      AnnouncedAppends(a, b[..|b| - 1], otherwise);
    }
  }
}
