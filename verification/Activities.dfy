/** The activities as engines run them: objects that step the shared job hash, alone or in a MULTI,
    and then publish to their children. Each leg is proved to be a sequence of the steps of JobRun. */
module Activities {
  import opened Options
  import opened Text
  import opened Collator
  import opened JobRun

  /* ---------- Redis ---------- */

  /** Commands an activity queues on a MULTI. */
  datatype Command =
    | SaveState(status: Option<int>, own: Option<Aid>, presets: seq<Aid>)
    | StepLedger(a: Aid, amount: int)
    | StepStatus(amount: int)

  datatype Reply = Saved | Counter(value: int)

  function ToSet(s: seq<Aid>): set<Aid> {
    set a | a in s
  }

  function Apply(h: Hash, c: Command): Hash {
    match c
    case SaveState(status, own, presets) =>
      var seeded := Seed(h, ToSet(presets));
      Hash(if status.Some? then status else h.status,
           if own.Some? then seeded.ledger[own.value := TRIGGER_SEED] else seeded.ledger)
    case StepLedger(a, amount) => Collate(h, a, amount)
    case StepStatus(amount) => AddStatus(h, amount)
  }

  function ReplyTo(h: Hash, c: Command): Reply {
    match c
    case SaveState(_, _, _) => Saved
    case StepLedger(a, amount) => Counter(Stand(h, a) + amount)
    case StepStatus(amount) => Counter(h.status.Or(0) + amount)
  }

  function ApplyAll(h: Hash, queue: seq<Command>): Hash {
    if queue == [] then h else Apply(ApplyAll(h, queue[..|queue| - 1]), queue[|queue| - 1])
  }

  function RepliesTo(h: Hash, queue: seq<Command>): seq<Reply> {
    if queue == [] then [] else
      RepliesTo(h, queue[..|queue| - 1]) + [ReplyTo(ApplyAll(h, queue[..|queue| - 1]), queue[|queue| - 1])]
  }

  /** The hash of one job, shared by all engines. */
  class JobStore {
    var hash: Hash

    constructor ()
      ensures hash == EMPTY.hash
    {
      hash := EMPTY.hash;
    }

    method SetStateNX() returns (ok: bool)
      modifies this
      ensures ok <==> old(hash.status) == None
      ensures hash == if ok then old(hash).(status := Some(1)) else old(hash)
    {
      ok := hash.status.None?;
      if ok {
        hash := hash.(status := Some(1));
      }
    }

    method Increment(a: Aid, amount: int) returns (after: int)
      modifies this
      ensures hash == JobRun.Collate(old(hash), a, amount)
      ensures after == Stand(hash, a)
    {
      after := Stand(hash, a) + amount;
      hash := JobRun.Collate(hash, a, amount);
    }

    /** MULTI ... EXEC: all commands at once, one reply each. */
    method Exec(queue: seq<Command>) returns (replies: seq<Reply>)
      modifies this
      ensures hash == ApplyAll(old(hash), queue)
      ensures replies == RepliesTo(old(hash), queue)
    {
      replies := [];
      ghost var start := hash;
      for i := 0 to |queue|
        invariant hash == ApplyAll(start, queue[..i])
        invariant replies == RepliesTo(start, queue[..i])
      {
        AppendCommand(start, queue[..i], queue[i]);
        assert queue[..i] + [queue[i]] == queue[..i + 1];
        replies := replies + [ReplyTo(hash, queue[i])];
        hash := Apply(hash, queue[i]);
      }
      assert queue[..|queue|] == queue;
    }
  }

  lemma AppendCommand(h: Hash, queue: seq<Command>, c: Command)
    ensures ApplyAll(h, queue + [c]) == Apply(ApplyAll(h, queue), c)
    ensures RepliesTo(h, queue + [c]) == RepliesTo(h, queue) + [ReplyTo(ApplyAll(h, queue), c)]
  {
    assert (queue + [c])[..|queue|] == queue;
  }

  lemma SeedNothing(h: Hash)
    ensures Seed(h, {}) == h
  {
  }

  lemma ThreeCommands(h: Hash, x: Command, y: Command, z: Command, h1: Hash, h2: Hash)
    requires h1 == Apply(h, x) && h2 == Apply(h1, y)
    ensures ApplyAll(h, [x, y, z]) == Apply(h2, z)
    ensures |RepliesTo(h, [x, y, z])| == 3 && RepliesTo(h, [x, y, z])[2] == ReplyTo(h2, z)
  {
    var none: seq<Command> := [];
    assert ApplyAll(h, none) == h && RepliesTo(h, none) == [];
    AppendCommand(h, none, x);
    assert none + [x] == [x];
    AppendCommand(h, [x], y);
    assert [x] + [y] == [x, y];
    AppendCommand(h, [x, y], z);
    assert [x, y] + [z] == [x, y, z];
  }

  /** The MULTI of every leg: save the state, step the ledger, step the semaphore. Its last reply is the
      semaphore's new value. */
  lemma LegQueue(h: Hash, a: Aid, step: LedgerStep, presets: seq<Aid>, amount: int)
    ensures var queue := [SaveState(None, None, presets), StepLedger(a, Delta(step)), StepStatus(amount)];
            var after := CommitLeg(h, a, step, ToSet(presets), amount);
            && ApplyAll(h, queue) == after
            && |RepliesTo(h, queue)| == 3 && RepliesTo(h, queue)[2] == Counter(after.status.value)
  {
    var h1 := Seed(h, ToSet(presets));
    ThreeCommands(h, SaveState(None, None, presets), StepLedger(a, Delta(step)), StepStatus(amount),
                  h1, JobRun.Collate(h1, a, Delta(step)));
  }

  /** Workers and awaits queue the ledger step first; with no children to seed the order is immaterial. */
  lemma LegQueueLedgerFirst(h: Hash, a: Aid, step: LedgerStep, amount: int)
    ensures var queue := [StepLedger(a, Delta(step)), SaveState(None, None, []), StepStatus(amount)];
            var after := CommitLeg(h, a, step, {}, amount);
            && ApplyAll(h, queue) == after
            && |RepliesTo(h, queue)| == 3 && RepliesTo(h, queue)[2] == Counter(after.status.value)
  {
    var h1 := JobRun.Collate(h, a, Delta(step));
    assert ToSet([]) == {};
    SeedNothing(h);
    SeedNothing(h1);
    ThreeCommands(h, StepLedger(a, Delta(step)), SaveState(None, None, []), StepStatus(amount), h1, h1);
  }

  /* ---------- collation ---------- */

  datatype Outcome = Done | Thrown(fault: Fault) | DuplicateJob | AlreadyComplete

  class CollatorService {
    static method NotarizeEntry(store: JobStore, a: Aid) returns (amount: int, verdict: Verdict)
      modifies store
      ensures store.hash == JobRun.Collate(old(store.hash), a, Delta(Enter))
      ensures amount == Stand(store.hash, a) && verdict == VerifyInteger(amount, One, EnterStage)
    {
      amount := store.Increment(a, -100_000_000_000_000);
      verdict := VerifyInteger(amount, One, EnterStage);
    }

    static method NotarizeReentry(store: JobStore, a: Aid) returns (amount: int, verdict: Verdict)
      modifies store
      ensures store.hash == JobRun.Collate(old(store.hash), a, Delta(Reenter))
      ensures amount == Stand(store.hash, a) && verdict == VerifyInteger(amount, Two, EnterStage)
    {
      amount := store.Increment(a, 1_000_000);
      verdict := VerifyInteger(amount, Two, EnterStage);
    }

    static method AuthorizeReentry(queue: seq<Command>, a: Aid) returns (queue': seq<Command>)
      ensures queue' == queue + [StepLedger(a, Delta(LedgerStep.AuthorizeReentry))]
    {
      queue' := queue + [StepLedger(a, -10_000_000_000_000)];
    }

    static method NotarizeEarlyCompletion(queue: seq<Command>, a: Aid) returns (queue': seq<Command>)
      ensures queue' == queue + [StepLedger(a, Delta(EarlyCompletion))]
    {
      queue' := queue + [StepLedger(a, 1_000_001 - 11_000_000_000_000)];
    }

    static method NotarizeContinuation(queue: seq<Command>, a: Aid) returns (queue': seq<Command>)
      ensures queue' == queue + [StepLedger(a, Delta(Continuation))]
    {
      queue' := queue + [StepLedger(a, 1)];
    }

    static method NotarizeCompletion(queue: seq<Command>, a: Aid) returns (queue': seq<Command>)
      ensures queue' == queue + [StepLedger(a, Delta(Completion))]
    {
      queue' := queue + [StepLedger(a, 1 - 1_000_000_000_000)];
    }
  }

  /* ---------- engine ---------- */

  datatype Message = Message(aid: Aid, dad: string)

  /** What an activity with a remote second leg asks for: a worker's run, or another job. */
  datatype Request = Request(kind: Kind, aid: Aid, dad: string)

  /** Who a job was spawned for; empty names mean nobody. */
  datatype Origin = Origin(pj: string, pd: string, pa: Aid)

  predicate HasParentJob(origin: Origin) {
    origin.pj != "" && origin.pa != ""
  }

  class Engine {
    var stream: seq<Message>    // transition messages published
    var requests: seq<Request>  // requests to workers and for other jobs
    var results: seq<Origin>    // results sent to the activities that spawned a job
    var completions: nat        // completion tasks run

    constructor ()
      ensures stream == [] && requests == [] && results == [] && completions == 0
    {
      stream, requests, results, completions := [], [], [], 0;
    }

    /** The result of a job goes to the activity that spawned it, if any did. */
    method ExecAdjacentParent(origin: Origin)
      modifies this`results
      ensures results == old(results) + if origin.pj != "" && origin.pa != "" then [origin] else []
    {
      if HasParentJob(origin) {
        results := results + [origin];
      }
    }

    method RunJobCompletionTasks(origin: Origin)
      modifies this`results, this`completions
      ensures completions == old(completions) + 1
      ensures results == old(results) + if origin.pj != "" && origin.pa != "" then [origin] else []
    {
      ExecAdjacentParent(origin);
      completions := completions + 1;
    }
  }

  /* ---------- activities ---------- */

  datatype Status = Success | Pending | Error

  /** A transition of the graph and what its rule evaluates to in the present context. */
  datatype Rule = Rule(to: Aid, holds: bool)

  function Chosen(rules: seq<Rule>): seq<Aid> {
    if rules == [] then [] else Chosen(rules[..|rules| - 1]) + if rules[|rules| - 1].holds then [rules[|rules| - 1].to]
        else []
  }

  /** Children get their parent's address extended by the index of the re-entry that chose them. */
  function ToMessages(kids: seq<Aid>, dad: string, index: int): seq<Message> {
    seq(|kids|, i requires 0 <= i < |kids| => Message(kids[i], dad + "," + Numeral(index)))
  }

  function Aids(messages: seq<Message>): seq<Aid> {
    seq(|messages|, i requires 0 <= i < |messages| => messages[i].aid)
  }

  predicate Distinct(rules: seq<Rule>) {
    forall i, j :: 0 <= i < j < |rules| ==> rules[i].to != rules[j].to
  }

  function Receivers(messages: seq<Message>): set<Aid> {
    set m | m in messages :: m.aid
  }

  ghost predicate RulesOf(g: Graph, a: Aid, rules: seq<Rule>) {
    Distinct(rules) && forall i :: 0 <= i < |rules| ==> rules[i].to in Kids(g, a)
  }

  /* ---------- legs in terms of the concurrent model ---------- */

  /** The steps are enabled one after the other and lead from `w` to `w'`. */
  ghost predicate Leads(g: Graph, w: World, events: seq<Event>, w': World)
    decreases |events|
  {
    if events == [] then w' == w else
      Enabled(g, w, events[0]) && Leads(g, After(g, w, events[0]), events[1..], w')
  }

  /** What an engine that lives on does after it has closed an activity. */
  function Aftermath(a: Aid, kids: seq<Aid>, spent: bool): seq<Event> {
    if kids != [] then [Publish(a)] else if spent then [RunCompletionTasks] else []
  }

  predicate IsSpent(h: Hash) {
    h.status.Some? && h.status.value <= 0
  }

  /** The steps of a first leg. */
  function FirstLeg(g: Graph, w: World, a: Aid, kids: seq<Aid>): seq<Event> {
    if !Passes(w, a, Enter, One) then [EnterLeg(a)]
    else if KindOf(g, a) != Plain then [EnterLeg(a), CommitWaiting(a)]
    else
      var closed := CommitLeg(JobRun.Collate(w.hash, a, Delta(Enter)), a, EarlyCompletion, ToSet(kids), |kids| - 1);
      [EnterLeg(a), CommitPlain(a, ToSet(kids))] + Aftermath(a, kids, IsSpent(closed))
  }

  /** The steps of a second leg; a worker of a spent job drops the event without a step. */
  function SecondLeg(g: Graph, w: World, a: Aid, status: Status, kids: seq<Aid>): seq<Event> {
    if !Passes(w, a, Reenter, Two) then [ReenterLeg(a)]
    else if KindOf(g, a) == Worker && IsSpent(w.hash) then [ReenterLeg(a), CrashLeg(a)]
    else if KindOf(g, a) == Worker && status == Pending then [ReenterLeg(a), CommitPending(a, ToSet(kids))]
    else
      var closed := CommitLeg(JobRun.Collate(w.hash, a, Delta(Reenter)), a, Completion, ToSet(kids), |kids| - 1);
      [ReenterLeg(a), CommitDone(a, ToSet(kids))] + Aftermath(a, kids, IsSpent(closed))
  }

  /** The steps of a trigger. */
  function TriggerSteps(g: Graph, w: World, kids: seq<Aid>): seq<Event> {
    if w.hash.status.Some? then [] else [CreateJob, StartJob(ToSet(kids))] + Aftermath(g.trigger, kids, true)
  }

  class Activity {
    const aid: Aid
    const kind: Kind
    const dad: string
    const origin: Origin
    const store: JobStore
    const engine: Engine
    var leg: Leg
    var adjacencyList: seq<Message>
    var adjacentIndex: int

    constructor (aid: Aid, kind: Kind, dad: string, origin: Origin, store: JobStore, engine: Engine)
      ensures this.aid == aid && this.kind == kind && this.dad == dad && this.origin == origin
      ensures this.store == store && this.engine == engine && adjacentIndex == 0 && adjacencyList == []
    {
      this.aid, this.kind, this.dad, this.origin, this.store, this.engine := aid, kind, dad, origin, store, engine;
      leg, adjacencyList, adjacentIndex := One, [], 0;
    }

    /** Transitions whose rule holds, in order. */
    method FilterAdjacent(rules: seq<Rule>)
      modifies this`adjacencyList
      ensures adjacencyList == ToMessages(Chosen(rules), dad, adjacentIndex)
      ensures |adjacencyList| == |Chosen(rules)| && forall i :: 0 <= i < |adjacencyList| ==>
        adjacencyList[i].aid == Chosen(rules)[i] && adjacencyList[i].dad == dad + "," + Numeral(adjacentIndex)
    {
      adjacencyList := [];
      for i := 0 to |rules|
        invariant adjacencyList == ToMessages(Chosen(rules[..i]), dad, adjacentIndex)
      {
        assert rules[..i + 1][..i] == rules[..i];
        if rules[i].holds {
          adjacencyList := adjacencyList + [Message(rules[i].to, dad + "," + Numeral(adjacentIndex))];
        }
      }
      assert rules[..|rules|] == rules;
    }

    /** The ledgers of the chosen children are seeded in the same HSET as the state. */
    method AuthorizeEntry() returns (presets: seq<Aid>)
      ensures presets == Aids(adjacencyList)
    {
      presets := [];
      for i := 0 to |adjacencyList|
        invariant presets == Aids(adjacencyList[..i])
      {
        presets := presets + [adjacencyList[i].aid];
      }
      assert adjacencyList[..|adjacencyList|] == adjacencyList;
    }

    method SetState(queue: seq<Command>) returns (queue': seq<Command>)
      ensures queue' == queue + [SaveState(None, None, Aids(adjacencyList))]
    {
      var presets := AuthorizeEntry();
      queue' := queue + [SaveState(None, None, presets)];
    }

    /** The semaphore is always stepped last, so its value is the last reply. */
    method ResolveStatus(replies: seq<Reply>) returns (status: int)
      requires replies != [] && replies[|replies| - 1].Counter?
      ensures status == replies[|replies| - 1].value
    {
      status := replies[|replies| - 1].value;
    }

    method Transition(jobStatus: int)
      modifies engine
      ensures engine.stream == old(engine.stream) + adjacencyList && engine.requests == old(engine.requests)
      ensures engine.completions
           == old(engine.completions) + if adjacencyList == [] && jobStatus <= 0 then 1 else 0
      ensures engine.results
           == old(engine.results) + if adjacencyList == [] && jobStatus <= 0 && HasParentJob(origin) then [origin]
               else []
    {
      if |adjacencyList| > 0 {
        for i := 0 to |adjacencyList|
          modifies engine`stream
          invariant engine.stream == old(engine.stream) + adjacencyList[..i]
        {
          engine.stream := engine.stream + [adjacencyList[i]];
        }
        assert adjacencyList[..|adjacencyList|] == adjacencyList;
      } else if jobStatus <= 0 {
        engine.RunJobCompletionTasks(origin);
      }
    }

    /** What a leg leaves behind: the hash after its steps, and messages to the children or, with none and
        the semaphore spent, the completion tasks and the result for whoever spawned the job. */
    twostate predicate Left(hash: Hash, kids: seq<Aid>, index: int)
      reads store, engine
    {
      var finished := kids == [] && IsSpent(hash);
      && store.hash == hash && engine.requests == old(engine.requests)
      && engine.stream == old(engine.stream) + ToMessages(kids, dad, index)
      && engine.completions == old(engine.completions) + (if finished then 1 else 0)
      && engine.results == old(engine.results) + (if finished && HasParentJob(origin) then [origin] else [])
    }

    twostate predicate LeftQuietly(hash: Hash, requests: seq<Request>)
      reads store, engine
    {
      && store.hash == hash && engine.requests == old(engine.requests) + requests && engine.stream == old(engine.stream)
      && engine.completions == old(engine.completions) && engine.results == old(engine.results)
    }

    /** What has happened in the store and the engine is what leads from world `w` to `w'`. */
    twostate predicate Matches(w: World, w': World)
      reads store, engine
    {
      && old(store.hash) == w.hash && store.hash == w'.hash && w'.owed == w.owed && w'.lost == w.lost
      && old(engine.stream) <= engine.stream
      && w'.published == w.published + Receivers(engine.stream[|old(engine.stream)|..])
      && engine.completions == old(engine.completions) + w'.ran - w.ran
    }

    /** The MULTI that closes an activity, and what follows it: publish to the children or, with none and
        the semaphore spent, run the completion tasks. */
    method Close(rules: seq<Rule>, step: LedgerStep)
      requires step == EarlyCompletion || step == Completion
      modifies this`adjacencyList, store, engine
      ensures var kids := Chosen(rules);
              Left(CommitLeg(old(store.hash), aid, step, ToSet(kids), |kids| - 1), kids, adjacentIndex)
      ensures old(engine.stream) <= engine.stream && |engine.stream| <= |old(engine.stream)| + |Chosen(rules)|
      ensures forall i :: |old(engine.stream)| <= i < |engine.stream| ==>
        && engine.stream[i].aid == Chosen(rules)[i - |old(engine.stream)|]
        && engine.stream[i].dad == dad + "," + Numeral(adjacentIndex)
      ensures engine.results == old(engine.results)
        + (if engine.completions > old(engine.completions) && origin.pj != "" && origin.pa != "" then [origin] else [])
    {
      FilterAdjacent(rules);
      assert Aids(adjacencyList) == Chosen(rules);
      var queue := SetState([]);
      if step == EarlyCompletion {
        queue := CollatorService.NotarizeEarlyCompletion(queue, aid);
      } else {
        queue := CollatorService.NotarizeCompletion(queue, aid);
      }
      queue := queue + [StepStatus(|adjacencyList| - 1)];
      LegQueue(store.hash, aid, step, Chosen(rules), |adjacencyList| - 1);
      var replies := store.Exec(queue);
      var jobStatus := ResolveStatus(replies);
      Transition(jobStatus);
    }

    /** What leg 1 sends out after its MULTI: workers and awaits a request, hooks nothing. */
    function Requests(): seq<Request> {
      if kind == Worker || kind == Await then [Request(kind, aid, dad)] else []
    }

    method ExecActivity()
      requires kind == Worker || kind == Await
      modifies engine`requests
      ensures engine.requests == old(engine.requests) + [Request(kind, aid, dad)]
    {
      engine.requests := engine.requests + [Request(kind, aid, dad)];
    }

    /** The MULTI that ends leg 1 of an activity with a second leg, and the request that follows it. */
    method Wait()
      requires adjacencyList == [] && kind != Plain
      modifies store, engine`requests
      ensures store.hash == CommitLeg(old(store.hash), aid, AuthorizeReentry, {}, 0)
      ensures engine.requests == old(engine.requests) + Requests()
    {
      hide ApplyAll, RepliesTo, Apply, CommitLeg;
      var queue: seq<Command> := [];
      assert Aids(adjacencyList) == [] && ToSet([]) == {};
      if kind == Hook {
        queue := SetState(queue);
        queue := CollatorService.AuthorizeReentry(queue, aid);
        LegQueue(store.hash, aid, AuthorizeReentry, [], 0);
      } else {
        queue := CollatorService.AuthorizeReentry(queue, aid);
        queue := SetState(queue);
        LegQueueLedgerFirst(store.hash, aid, AuthorizeReentry, 0);
      }
      queue := queue + [StepStatus(0)];
      assert queue == if kind == Hook then [SaveState(None, None, []), StepLedger(aid, Delta(AuthorizeReentry)),
          StepStatus(0)]
                      else [StepLedger(aid, Delta(AuthorizeReentry)), SaveState(None, None, []), StepStatus(0)];
      var _ := store.Exec(queue);
      if kind != Hook {
        ExecActivity();
      }
    }

    /** The MULTI of a pending reply: children are seeded but neither counted nor started. */
    method ProcessPending(rules: seq<Rule>)
      modifies this`adjacencyList, store
      ensures store.hash == CommitLeg(old(store.hash), aid, Continuation, ToSet(Chosen(rules)), 0)
    {
      FilterAdjacent(rules);
      assert Aids(adjacencyList) == Chosen(rules);
      var queue := SetState([]);
      queue := CollatorService.NotarizeContinuation(queue, aid);
      queue := queue + [StepStatus(0)];
      LegQueue(store.hash, aid, Continuation, Chosen(rules), 0);
      var _ := store.Exec(queue);
    }

    /** The first leg: enter; an activity without a hook completes and hands on, any other waits. The ghost world is
        any that has the store's hash and the activity's transition published. */
    method Process(rules: seq<Rule>, ghost g: Graph, ghost w: World) returns (outcome: Outcome, ghost w': World)
      requires adjacencyList == [] && adjacentIndex == 0
      requires w.hash == store.hash && Enabled(g, w, EnterLeg(aid)) && kind == KindOf(g, aid) && RulesOf(g, aid, rules)
      modifies this, store, engine
      ensures Leads(g, w, FirstLeg(g, w, aid, Chosen(rules)), w') && Matches(w, w')
      ensures var entered := JobRun.Collate(old(store.hash), aid, Delta(Enter));
              match VerifyInteger(Stand(entered, aid), One, EnterStage)
              case Fail(fault) => outcome == Thrown(fault) && LeftQuietly(entered, [])
              case Pass =>
                outcome == Done
                && if kind != Plain then LeftQuietly(CommitLeg(entered, aid, AuthorizeReentry, {}, 0), Requests())
                   else var kids := Chosen(rules);
                        Left(CommitLeg(entered, aid, EarlyCompletion, ToSet(kids), |kids| - 1), kids, 0)
      ensures old(engine.stream) <= engine.stream && |engine.stream| <= |old(engine.stream)| + |Chosen(rules)|
      ensures forall i :: |old(engine.stream)| <= i < |engine.stream| ==>
        && engine.stream[i].aid == Chosen(rules)[i - |old(engine.stream)|]
        && engine.stream[i].dad == dad + "," + "0"
      ensures engine.results == old(engine.results)
        + (if engine.completions > old(engine.completions) && origin.pj != "" && origin.pa != "" then [origin] else [])
      ensures engine.requests == old(engine.requests)
        + (if outcome == Done && (kind == Worker || kind == Await) then [Request(kind, aid, dad)] else [])
    {
      hide CommitLeg, VerifyInteger, Leads, FirstLeg, Enabled, RulesOf, Chosen;
      w' := FirstLegLeads(g, w, aid, rules);
      leg := One;
      var amount, verdict := CollatorService.NotarizeEntry(store, aid);
      if verdict.Fail? {
        outcome := Thrown(verdict.fault);
        return;
      }
      if kind == Plain {
        Close(rules, EarlyCompletion);
        MessagesReach(Chosen(rules), dad, 0);
      } else {
        Wait();
      }
      outcome := Done;
    }

    /** The second leg: re-enter; a worker whose job has finished returns, a worker's pending reply keeps
        the activity open, anything else closes it. */
    method ProcessEvent(status: Status, rules: seq<Rule>, ghost g: Graph, ghost w: World)
      returns (outcome: Outcome, ghost w': World)
      requires w.hash == store.hash && Enabled(g, w, ReenterLeg(aid)) && kind == KindOf(g, aid)
          && RulesOf(g, aid, rules)
      modifies this, store, engine
      ensures Leads(g, w, SecondLeg(g, w, aid, status, Chosen(rules)), w') && Matches(w, w')
      ensures var entered := JobRun.Collate(old(store.hash), aid, Delta(Reenter));
              var kids := Chosen(rules);
              match VerifyInteger(Stand(entered, aid), Two, EnterStage)
              case Fail(fault) => outcome == Thrown(fault) && LeftQuietly(entered, [])
              case Pass =>
                if kind == Worker && IsSpent(old(store.hash)) then
                  outcome == AlreadyComplete && LeftQuietly(entered, [])
                else if kind == Worker && status == Pending then
                  outcome == Done && LeftQuietly(CommitLeg(entered, aid, Continuation, ToSet(kids), 0), [])
                else
                  outcome == Done
                  && Left(CommitLeg(entered, aid, Completion, ToSet(kids), |kids| - 1), kids, adjacentIndex)
                  && (GetDimensionalIndex(Stand(entered, aid)).Num? ==>
                        GetDimensionalIndex(Stand(entered, aid)) == Num(adjacentIndex))
      ensures old(engine.stream) <= engine.stream && |engine.stream| <= |old(engine.stream)| + |Chosen(rules)|
      ensures forall i :: |old(engine.stream)| <= i < |engine.stream| ==>
        && engine.stream[i].aid == Chosen(rules)[i - |old(engine.stream)|]
        && engine.stream[i].dad == dad + "," + Numeral(adjacentIndex)
      ensures engine.results == old(engine.results)
        + (if engine.completions > old(engine.completions) && origin.pj != "" && origin.pa != "" then [origin] else [])
      ensures engine.requests == old(engine.requests)
      ensures outcome == AlreadyComplete <==>
        && VerifyInteger(Stand(JobRun.Collate(old(store.hash), aid, Delta(Reenter)), aid), Two, EnterStage) == Pass
        && kind == Worker && old(store.hash).status.Some? && old(store.hash).status.value <= 0
    {
      hide CommitLeg, VerifyInteger, Leads, SecondLeg, Enabled, RulesOf, GetDimensionalIndex, Chosen;
      w' := SecondLegLeads(g, w, aid, status, rules);
      leg := Two;
      var js := store.hash.status;
      var amount, verdict := CollatorService.NotarizeReentry(store, aid);
      if verdict.Fail? {
        outcome := Thrown(verdict.fault);
        return;
      }
      var index := GetDimensionalIndex(amount);
      if index.Num? {
        adjacentIndex := index.n;
      }
      if kind == Worker && js.Some? && js.value <= 0 {
        outcome := AlreadyComplete;
        return;
      }
      if kind == Worker && status == Pending {
        ProcessPending(rules);
      } else {
        Close(rules, Completion);
        MessagesReach(Chosen(rules), dad, adjacentIndex);
      }
      outcome := Done;
    }
  }

  ghost predicate Rising(at: seq<nat>, below: nat) {
    (forall i {:trigger at[i]} :: 0 <= i < |at| ==> at[i] < below)
    && forall i, j {:trigger at[i], at[j]} :: 0 <= i < j < |at| ==> at[i] < at[j]
  }

  ghost predicate Picked(rules: seq<Rule>, at: seq<nat>, kids: seq<Aid>) {
    |at| == |kids| && forall i {:trigger at[i]} :: 0 <= i < |at| ==>
      at[i] < |rules| && rules[at[i]].holds && rules[at[i]].to == kids[i]
  }

  ghost predicate NoneLeftOut(rules: seq<Rule>, at: seq<nat>) {
    forall k: nat {:trigger rules[k]} :: k < |rules| && rules[k].holds ==> k in at
  }

  /** The children chosen are the targets of the rules that hold, in the rules' order. */
  lemma {:induction false} ChosenInOrder(rules: seq<Rule>) returns (at: seq<nat>)
    ensures Rising(at, |rules|) && Picked(rules, at, Chosen(rules)) && NoneLeftOut(rules, at)
    decreases |rules|
  {
    hide Rising, Picked, NoneLeftOut;
    if rules == [] {
      at := [];
      NothingPicked(rules);
    } else {
      var n := |rules| - 1;
      at := ChosenInOrder(rules[..n]);
      PickNext(rules, at, Chosen(rules[..n]));
      at := if rules[n].holds then at + [n] else at;
    }
  }

  lemma NothingPicked(rules: seq<Rule>)
    requires rules == []
    ensures Rising([], 0) && Picked(rules, [], []) && NoneLeftOut(rules, [])
  {
  }

  lemma PickNext(rules: seq<Rule>, at: seq<nat>, kids: seq<Aid>)
    requires rules != []
    requires var n := |rules| - 1; Rising(at, n) && Picked(rules[..n], at, kids) && NoneLeftOut(rules[..n], at)
    ensures var n := |rules| - 1; var at' := if rules[n].holds then at + [n] else at;
      && Rising(at', n + 1) && NoneLeftOut(rules, at')
      && Picked(rules, at', kids + if rules[n].holds then [rules[n].to] else [])
  {
    hide Chosen;
    var n := |rules| - 1;
    var at' := if rules[n].holds then at + [n] else at;
    forall k: nat | k < |rules| && rules[k].holds ensures k in at' {
      if k < n {
        assert rules[..n][k] == rules[k];
      } else {
        assert at'[|at|] == k;
      }
    }
    assert kids + [] == kids;
  }

  /** The messages that two re-entries of one history send to their children never carry the same address. */
  lemma MessagesOfReentriesDiffer(steps: seq<LedgerStep>, more: seq<LedgerStep>, path: seq<nat>,
      kids: seq<Aid>, later: seq<Aid>, m: Message, m': Message)
    requires var c := Tally(steps + [Reenter] + more + [Reenter]); FieldsFit(c) && c.entries <= 8
    requires var c := Tally(steps + [Reenter]); FieldsFit(c) && c.entries <= 8
    requires var first, second := GetDimensionalIndex(Stored(steps + [Reenter])),
                                  GetDimensionalIndex(Stored(steps + [Reenter] + more + [Reenter]));
      && (first.Num? ==> m in ToMessages(kids, Address(path), first.n))
      && (second.Num? ==> m' in ToMessages(later, Address(path), second.n))
    ensures m.dad != m'.dad
  {
    ReentriesGetDifferentIndexes(steps, more);
    ChildAddressesDiffer(steps, more, path);
  }

  /** A child's address is its parent's path with the index of the re-entry as one generation more. */
  lemma MessagesCarryAddresses(kids: seq<Aid>, path: seq<nat>, index: nat, m: Message)
    requires m in ToMessages(kids, Address(path), index)
    ensures m.dad == Address(path + [index]) && m.aid in kids
  {
    var messages := ToMessages(kids, Address(path), index);
    var i :| 0 <= i < |messages| && messages[i] == m;
    var longer := path + [index];
    assert longer[..|longer| - 1] == path && longer[|longer| - 1] == index;
    assert m.dad == Address(path) + "," + Numeral(index);
    assert Address(longer) == Address(path) + "," + Decimal(index);
  }

  class Trigger {
    const activity: Activity

    constructor (activity: Activity)
      ensures this.activity == activity
    {
      this.activity := activity;
    }

    /** The one HSET of the number of children and their seeds, and what follows it. */
    method Start(rules: seq<Rule>)
      requires activity.adjacentIndex == 0
      modifies activity`adjacencyList, activity.store, activity.engine
      ensures var kids := Chosen(rules);
        && activity.store.hash == Apply(old(activity.store.hash), SaveState(Some(|kids|), Some(activity.aid), kids))
        && activity.engine.stream == old(activity.engine.stream) + ToMessages(kids, activity.dad, 0)
        && activity.engine.requests == old(activity.engine.requests)
        && activity.engine.completions == old(activity.engine.completions) + (if kids == [] then 1 else 0)
        && activity.engine.results
           == old(activity.engine.results)
              + (if kids == [] && HasParentJob(activity.origin) then [activity.origin] else [])
    {
      activity.FilterAdjacent(rules);
      assert Aids(activity.adjacencyList) == Chosen(rules);
      var js := |activity.adjacencyList|;
      var presets := activity.AuthorizeEntry();
      var queue := [SaveState(Some(js), Some(activity.aid), presets)];
      AppendCommand(activity.store.hash, [], queue[0]);
      assert [] + [queue[0]] == queue;
      hide Apply, ReplyTo;
      var _ := activity.store.Exec(queue);
      activity.Transition(js);
    }

    /** A job is created once, then started. */
    method Process(rules: seq<Rule>, ghost g: Graph, ghost w: World) returns (outcome: Outcome, ghost w': World)
      requires activity.adjacencyList == [] && activity.adjacentIndex == 0
      requires w.hash == activity.store.hash && (w.hash.status.None? ==> w == EMPTY)
      requires g.trigger == activity.aid && RulesOf(g, g.trigger, rules)
      modifies activity, activity.store, activity.engine
      ensures Leads(g, w, TriggerSteps(g, w, Chosen(rules)), w') && activity.Matches(w, w')
      ensures var kids := Chosen(rules);
              if old(activity.store.hash.status).Some? then
                outcome == DuplicateJob && activity.LeftQuietly(old(activity.store.hash), [])
              else
                outcome == Done
                && activity.store.hash == Apply(old(activity.store.hash),
                    SaveState(Some(|kids|), Some(activity.aid), kids))
                && activity.engine.stream == old(activity.engine.stream) + ToMessages(kids, activity.dad, 0)
                && activity.engine.requests == old(activity.engine.requests)
                && activity.engine.completions == old(activity.engine.completions) + (if kids == [] then 1 else 0)
                && activity.engine.results
                   == old(activity.engine.results)
                      + (if kids == [] && activity.origin.pj != "" && activity.origin.pa != ""
                         then [activity.origin] else [])
                && |activity.engine.stream| == |old(activity.engine.stream)| + |kids|
                && forall i :: 0 <= i < |kids| ==>
                     var m := activity.engine.stream[|old(activity.engine.stream)| + i];
                     m.aid == kids[i] && m.dad == activity.dad + "," + "0"
    {
      hide Leads, TriggerSteps, Chosen, RulesOf, ApplyAll, RepliesTo;
      w' := TriggerLeads(g, w, rules);
      MessagesReach(Chosen(rules), activity.dad, 0);
      assert Numeral(0) == "0";
      activity.leg := Two;
      var created := activity.store.SetStateNX();
      if !created {
        outcome := DuplicateJob;
        return;
      }
      Start(rules);
      outcome := Done;
    }
  }

  /* ---------- legs are steps of the concurrent model ---------- */

  lemma {:induction false} ChosenFrom(rules: seq<Rule>, k: Aid)
    ensures k in Chosen(rules) <==> exists i :: 0 <= i < |rules| && rules[i].to == k && rules[i].holds
    decreases |rules|
  {
    if rules != [] {
      var n := |rules| - 1;
      ChosenFrom(rules[..n], k);
      if i :| 0 <= i < |rules| && rules[i].to == k && rules[i].holds {
        assert i < n ==> rules[..n][i] == rules[i];
      }
    }
  }

  /** Different children stay different, so the set counted by the semaphore has as many elements as the list. */
  lemma {:induction false} ChosenAreDistinct(rules: seq<Rule>)
    requires Distinct(rules)
    ensures |ToSet(Chosen(rules))| == |Chosen(rules)|
    decreases |rules|
  {
    if rules != [] {
      var n := |rules| - 1;
      ChosenAreDistinct(rules[..n]);
      ChosenFrom(rules[..n], rules[n].to);
      var kids := Chosen(rules[..n]);
      if rules[n].holds {
        assert ToSet(kids + [rules[n].to]) == ToSet(kids) + {rules[n].to};
      } else {
        assert Chosen(rules) == kids;
      }
    }
  }

  lemma ChosenAreKids(g: Graph, a: Aid, rules: seq<Rule>)
    requires RulesOf(g, a, rules)
    ensures ToSet(Chosen(rules)) <= Kids(g, a) && |ToSet(Chosen(rules))| == |Chosen(rules)|
  {
    ChosenAreDistinct(rules);
    forall k | k in Chosen(rules) ensures k in Kids(g, a) {
      ChosenFrom(rules, k);
    }
  }

  /** An entry that is let in: who is in the leg, and the one number it has stepped. */
  lemma EntryEffect(g: Graph, w: World, e: Event)
    requires Enabled(g, w, e) && (e.EnterLeg? || e.ReenterLeg?)
    requires e.EnterLeg? ==> Passes(w, e.a, Enter, One)
    requires e.ReenterLeg? ==> Passes(w, e.a, Reenter, Two)
    ensures var w', step := After(g, w, e), if e.EnterLeg? then Enter else Reenter;
      && InLeg(w', e.a, if e.EnterLeg? then One else Two) && w'.owed == w.owed
      && w'.hash == JobRun.Collate(w.hash, e.a, Delta(step))
  {
    hide Passes, Stand;
  }

  /** The step is enabled and leaves the hash, the messages for exactly the children and, with none and the semaphore
      spent, the completion tasks owed once more. */
  predicate Closes(g: Graph, w: World, e: Event, hash: Hash, kids: seq<Aid>, owed: nat)
    requires e.CommitPlain? || e.CommitDone?
  {
    && Enabled(g, w, e) && After(g, w, e).hash == hash
    && (kids != [] ==> e.a in After(g, w, e).outbox && After(g, w, e).outbox[e.a] == ToSet(kids))
    && After(g, w, e).owed == owed + if kids == [] && IsSpent(hash) then 1 else 0
  }

  /** A closing step of an engine in the leg. */
  lemma CommitEffect(g: Graph, w: World, a: Aid, kids: seq<Aid>)
    requires |ToSet(kids)| == |kids| && ToSet(kids) <= Kids(g, a)
    ensures InLeg(w, a, One) && KindOf(g, a) == Plain ==>
      Closes(g, w, CommitPlain(a, ToSet(kids)),
             CommitLeg(w.hash, a, EarlyCompletion, ToSet(kids), |kids| - 1), kids, w.owed)
    ensures InLeg(w, a, Two) ==>
      Closes(g, w, CommitDone(a, ToSet(kids)),
             CommitLeg(w.hash, a, Completion, ToSet(kids), |kids| - 1), kids, w.owed)
  {
    hide CommitLeg, JobRun.Close;
    ClosingEffect(w, a, EarlyCompletion, kids);
    ClosingEffect(w, a, Completion, kids);
  }

  /** What `Activity.Process` does on a plain activity is EnterLeg followed by CommitPlain: the same hash,
      messages for exactly the children handed on, and completion tasks exactly when the model owes them. */
  lemma PlainLegIsTwoSteps(g: Graph, w: World, a: Aid, rules: seq<Rule>)
    requires Enabled(g, w, EnterLeg(a)) && Passes(w, a, Enter, One) && KindOf(g, a) == Plain && RulesOf(g, a, rules)
    ensures var kids := Chosen(rules);
            var hash := CommitLeg(JobRun.Collate(w.hash, a, Delta(Enter)), a, EarlyCompletion, ToSet(kids), |kids| - 1);
            Closes(g, After(g, w, EnterLeg(a)), CommitPlain(a, ToSet(kids)), hash, kids, w.owed)
  {
    hide *;
    ChosenAreKids(g, a, rules);
    EntryEffect(g, w, EnterLeg(a));
    CommitEffect(g, After(g, w, EnterLeg(a)), a, Chosen(rules));
  }

  lemma ClosingEffect(w: World, a: Aid, step: LedgerStep, kids: seq<Aid>)
    requires |ToSet(kids)| == |kids|
    ensures var w' := JobRun.Close(w, a, step, ToSet(kids));
            && w'.hash == CommitLeg(w.hash, a, step, ToSet(kids), |kids| - 1)
            && (kids != [] ==> a in w'.outbox && w'.outbox[a] == ToSet(kids))
            && w'.owed == w.owed + if kids == [] && IsSpent(w'.hash) then 1 else 0
  {
    hide Seed, Recount;
    assert kids == [] <==> ToSet(kids) == {} by {
      if kids != [] {
        assert kids[0] in ToSet(kids);
      }
    }
  }

  /** The same for the second leg that closes an activity. */
  lemma ClosingLegIsTwoSteps(g: Graph, w: World, a: Aid, rules: seq<Rule>)
    requires Enabled(g, w, ReenterLeg(a)) && Passes(w, a, Reenter, Two) && RulesOf(g, a, rules)
    ensures var kids := Chosen(rules);
            var hash := CommitLeg(JobRun.Collate(w.hash, a, Delta(Reenter)), a, Completion, ToSet(kids), |kids| - 1);
            Closes(g, After(g, w, ReenterLeg(a)), CommitDone(a, ToSet(kids)), hash, kids, w.owed)
  {
    hide *;
    ChosenAreKids(g, a, rules);
    EntryEffect(g, w, ReenterLeg(a));
    CommitEffect(g, After(g, w, ReenterLeg(a)), a, Chosen(rules));
  }

  /** The first leg of an activity that waits, and a worker's pending reply. */
  lemma WaitingLegIsTwoSteps(g: Graph, w: World, a: Aid)
    requires Enabled(g, w, EnterLeg(a)) && Passes(w, a, Enter, One) && KindOf(g, a) != Plain
    ensures var w1 := After(g, w, EnterLeg(a));
            && Enabled(g, w1, CommitWaiting(a))
            && After(g, w1, CommitWaiting(a)).hash
               == CommitLeg(JobRun.Collate(w.hash, a, Delta(Enter)), a, AuthorizeReentry, {}, 0)
  {
  }

  lemma PendingLegIsTwoSteps(g: Graph, w: World, a: Aid, rules: seq<Rule>)
    requires Enabled(g, w, ReenterLeg(a)) && Passes(w, a, Reenter, Two) && KindOf(g, a) == Worker
    requires RulesOf(g, a, rules)
    ensures var w1 := After(g, w, ReenterLeg(a));
            var e := CommitPending(a, ToSet(Chosen(rules)));
            && Enabled(g, w1, e)
            && After(g, w1, e).hash
               == CommitLeg(JobRun.Collate(w.hash, a, Delta(Reenter)), a, Continuation, ToSet(Chosen(rules)), 0)
  {
    ChosenAreKids(g, a, rules);
  }

  /** What `Trigger.Process` does on a new job is CreateJob followed by StartJob. */
  lemma TriggerIsTwoSteps(g: Graph, w: World, rules: seq<Rule>)
    requires w == EMPTY && RulesOf(g, g.trigger, rules)
    ensures Enabled(g, w, CreateJob)
    ensures var w1 := After(g, w, CreateJob);
            var kids := Chosen(rules);
            var e := StartJob(ToSet(kids));
            && Enabled(g, w1, e)
            && After(g, w1, e).hash == Apply(w.hash, SaveState(Some(|kids|), Some(g.trigger), kids))
            && After(g, w1, e).owed == if kids == [] then 1 else 0
  {
    ChosenAreKids(g, g.trigger, rules);
    var kids := Chosen(rules);
    assert kids == [] <==> ToSet(kids) == {} by {
      if kids != [] {
        assert kids[0] in ToSet(kids);
      }
    }
  }

  lemma MessagesReach(kids: seq<Aid>, dad: string, index: int)
    ensures Receivers(ToMessages(kids, dad, index)) == ToSet(kids)
  {
    var messages := ToMessages(kids, dad, index);
    forall k | k in kids ensures k in Receivers(messages) {
      var i :| 0 <= i < |kids| && kids[i] == k;
      assert messages[i] in messages;
    }
  }

  /** After the closing step the engine publishes to the children or runs the completion tasks it owes. */
  lemma AftermathLeads(g: Graph, w: World, a: Aid, kids: seq<Aid>, spent: bool, w0: World) returns (w': World)
    requires kids != [] ==> a in w.outbox && w.outbox[a] == ToSet(kids)
    requires w.owed == w0.owed + (if kids == [] && spent then 1 else 0)
    requires w.published == w0.published && w.ran == w0.ran && w.lost == w0.lost
    ensures Leads(g, w, Aftermath(a, kids, spent), w') && w'.hash == w.hash && w'.owed == w0.owed && w'.lost == w0.lost
    ensures w'.published == w0.published + ToSet(kids)
    ensures w'.ran == w0.ran + if kids == [] && spent then 1 else 0
  {
    w' := if kids != [] then After(g, w, Publish(a)) else if spent then After(g, w, RunCompletionTasks) else w;
    var events := Aftermath(a, kids, spent);
    if events != [] {
      assert events[1..] == [];
    }
  }

  lemma TwoStepsLead(g: Graph, w: World, e: Event, e': Event, rest: seq<Event>, w': World)
    requires Enabled(g, w, e) && Enabled(g, After(g, w, e), e')
    requires Leads(g, After(g, After(g, w, e), e'), rest, w')
    ensures Leads(g, w, [e, e'] + rest, w')
  {
    hide Enabled, After;
    assert ([e, e'] + rest)[1..] == [e'] + rest && ([e'] + rest)[1..] == rest;
  }

  lemma OneStepLeads(g: Graph, w: World, e: Event)
    requires Enabled(g, w, e)
    ensures Leads(g, w, [e], After(g, w, e))
  {
    hide Enabled, After;
    assert [e][1..] == [];
  }

  lemma AttemptsKeepTheRest(g: Graph, w: World, e: Event)
    requires Enabled(g, w, e) && (e.EnterLeg? || e.ReenterLeg? || e.CrashLeg? || e.CommitWaiting? || e.CommitPending?)
    ensures var w' := After(g, w, e);
      w'.owed == w.owed && w'.lost == w.lost && w'.ran == w.ran && w'.published == w.published
    ensures e.EnterLeg? ==> After(g, w, e).hash == JobRun.Collate(w.hash, e.a, Delta(Enter))
    ensures e.ReenterLeg? ==> After(g, w, e).hash == JobRun.Collate(w.hash, e.a, Delta(Reenter))
    ensures e.CrashLeg? ==> After(g, w, e).hash == w.hash
  {
  }

  lemma ClosingKeepsTheRest(g: Graph, w: World, e: Event)
    requires Enabled(g, w, e) && (e.CommitPlain? || e.CommitDone?)
    ensures var w' := After(g, w, e); w'.lost == w.lost && w'.ran == w.ran && w'.published == w.published
  {
  }

  /** A first leg is a way of the concurrent model, with the effects the engine shows. */
  lemma FirstLegLeads(g: Graph, w: World, a: Aid, rules: seq<Rule>) returns (w': World)
    requires Enabled(g, w, EnterLeg(a)) && RulesOf(g, a, rules)
    ensures Leads(g, w, FirstLeg(g, w, a, Chosen(rules)), w') && w'.owed == w.owed && w'.lost == w.lost
    ensures var entered, kids := JobRun.Collate(w.hash, a, Delta(Enter)), Chosen(rules);
      var closes := Passes(w, a, Enter, One) && KindOf(g, a) == Plain;
      && w'.hash == (if !Passes(w, a, Enter, One) then entered
                     else if KindOf(g, a) != Plain then CommitLeg(entered, a, AuthorizeReentry, {}, 0)
                     else CommitLeg(entered, a, EarlyCompletion, ToSet(kids), |kids| - 1))
      && w'.published == w.published + (if closes then ToSet(kids) else {})
      && w'.ran == w.ran + if closes && kids == [] && IsSpent(w'.hash) then 1 else 0
  {
    var w1 := After(g, w, EnterLeg(a));
    AttemptsKeepTheRest(g, w, EnterLeg(a));
    if !Passes(w, a, Enter, One) {
      OneStepLeads(g, w, EnterLeg(a));
      w' := w1;
    } else if KindOf(g, a) != Plain {
      WaitingLegIsTwoSteps(g, w, a);
      w' := HoldingLeads(g, w, EnterLeg(a), CommitWaiting(a));
    } else {
      var kids := Chosen(rules);
      PlainLegIsTwoSteps(g, w, a, rules);
      w' := ClosingLeads(g, w, EnterLeg(a), CommitPlain(a, ToSet(kids)), kids);
    }
  }

  lemma HoldingLeads(g: Graph, w: World, e: Event, e': Event) returns (w': World)
    requires Enabled(g, w, e) && (e.EnterLeg? || e.ReenterLeg?)
    requires Enabled(g, After(g, w, e), e') && (e'.CommitWaiting? || e'.CommitPending? || e'.CrashLeg?)
    ensures w' == After(g, After(g, w, e), e') && Leads(g, w, [e, e'], w')
    ensures w'.owed == w.owed && w'.lost == w.lost && w'.ran == w.ran && w'.published == w.published
  {
    w' := After(g, After(g, w, e), e');
    AttemptsKeepTheRest(g, w, e);
    AttemptsKeepTheRest(g, After(g, w, e), e');
    hide Enabled, After;
    TwoStepsLead(g, w, e, e', [], w');
    assert [e, e'] + [] == [e, e'];
  }

  lemma ClosingLeads(g: Graph, w: World, e: Event, e': Event, kids: seq<Aid>) returns (w': World)
    requires Enabled(g, w, e) && (e.EnterLeg? || e.ReenterLeg?)
    requires Enabled(g, After(g, w, e), e') && (e'.CommitPlain? || e'.CommitDone?)
    requires var w2 := After(g, After(g, w, e), e');
      && (kids != [] ==> e'.a in w2.outbox && w2.outbox[e'.a] == ToSet(kids))
      && w2.owed == w.owed + if kids == [] && IsSpent(w2.hash) then 1 else 0
    ensures var w2 := After(g, After(g, w, e), e');
      && Leads(g, w, [e, e'] + Aftermath(e'.a, kids, IsSpent(w2.hash)), w')
      && w'.hash == w2.hash && w'.owed == w.owed && w'.lost == w.lost
      && w'.published == w.published + ToSet(kids)
      && w'.ran == w.ran + if kids == [] && IsSpent(w2.hash) then 1 else 0
  {
    var w2 := After(g, After(g, w, e), e');
    AttemptsKeepTheRest(g, w, e);
    ClosingKeepsTheRest(g, After(g, w, e), e');
    hide Enabled, After, IsSpent;
    w' := AftermathLeads(g, w2, e'.a, kids, IsSpent(w2.hash), w);
    TwoStepsLead(g, w, e, e', Aftermath(e'.a, kids, IsSpent(w2.hash)), w');
  }

  lemma DroppedLegIsTwoSteps(g: Graph, w: World, a: Aid)
    requires Enabled(g, w, ReenterLeg(a)) && Passes(w, a, Reenter, Two)
    ensures var w1 := After(g, w, ReenterLeg(a));
      Enabled(g, w1, CrashLeg(a)) && After(g, w1, CrashLeg(a)).hash == JobRun.Collate(w.hash, a, Delta(Reenter))
  {
  }

  /** So is a second leg. */
  lemma SecondLegLeads(g: Graph, w: World, a: Aid, status: Status, rules: seq<Rule>) returns (w': World)
    requires Enabled(g, w, ReenterLeg(a)) && RulesOf(g, a, rules)
    ensures Leads(g, w, SecondLeg(g, w, a, status, Chosen(rules)), w') && w'.owed == w.owed && w'.lost == w.lost
    ensures var entered, kids := JobRun.Collate(w.hash, a, Delta(Reenter)), Chosen(rules);
      var dropped := !Passes(w, a, Reenter, Two) || (KindOf(g, a) == Worker && IsSpent(w.hash));
      var pending := !dropped && KindOf(g, a) == Worker && status == Pending;
      && w'.hash == (if dropped then entered
                     else if pending then CommitLeg(entered, a, Continuation, ToSet(kids), 0)
                     else CommitLeg(entered, a, Completion, ToSet(kids), |kids| - 1))
      && w'.published == w.published + (if dropped || pending then {} else ToSet(kids))
      && w'.ran == w.ran + if !dropped && !pending && kids == [] && IsSpent(w'.hash) then 1 else 0
  {
    hide Enabled, After, CommitLeg, Passes, Leads, RulesOf, Chosen;
    var kids := Chosen(rules);
    AttemptsKeepTheRest(g, w, ReenterLeg(a));
    if !Passes(w, a, Reenter, Two) {
      OneStepLeads(g, w, ReenterLeg(a));
      w' := After(g, w, ReenterLeg(a));
    } else if KindOf(g, a) == Worker && IsSpent(w.hash) {
      DroppedLegIsTwoSteps(g, w, a);
      w' := HoldingLeads(g, w, ReenterLeg(a), CrashLeg(a));
    } else if KindOf(g, a) == Worker && status == Pending {
      PendingLegIsTwoSteps(g, w, a, rules);
      w' := HoldingLeads(g, w, ReenterLeg(a), CommitPending(a, ToSet(kids)));
    } else {
      ClosingLegIsTwoSteps(g, w, a, rules);
      w' := ClosingLeads(g, w, ReenterLeg(a), CommitDone(a, ToSet(kids)), kids);
    }
  }

  /** And so is a trigger's work. */
  lemma TriggerLeads(g: Graph, w: World, rules: seq<Rule>) returns (w': World)
    requires (w.hash.status.None? ==> w == EMPTY) && RulesOf(g, g.trigger, rules)
    ensures Leads(g, w, TriggerSteps(g, w, Chosen(rules)), w') && w'.owed == w.owed && w'.lost == w.lost
    ensures var kids := Chosen(rules);
      if w.hash.status.Some? then w' == w else
        && w'.hash == Apply(w.hash, SaveState(Some(|kids|), Some(g.trigger), kids))
        && w'.published == w.published + ToSet(kids) && w'.ran == w.ran + if kids == [] then 1 else 0
  {
    var kids := Chosen(rules);
    w' := w;
    if w.hash.status.None? {
      TriggerIsTwoSteps(g, w, rules);
      var e, e' := CreateJob, StartJob(ToSet(kids));
      var w2 := After(g, After(g, w, e), e');
      w' := AftermathLeads(g, w2, g.trigger, kids, true, w);
      TwoStepsLead(g, w, e, e', Aftermath(g.trigger, kids, true), w');
    }
  }
}
