/** Whole runs of one job: what holds over any interleaving of any number of engines. */
module JobTheorems {
  import opened Options
  import opened Collator
  import opened Sums
  import opened JobRun

  /** A run: the worlds an execution passes through and the steps between them. */
  datatype Trace = Trace(worlds: seq<World>, events: seq<Event>)

  predicate StepAt(g: Graph, t: Trace, i: nat) {
    i < |t.events| && i + 1 < |t.worlds|
    && Enabled(g, t.worlds[i], t.events[i]) && t.worlds[i + 1] == After(g, t.worlds[i], t.events[i])
  }

  ghost predicate IsTrace(g: Graph, t: Trace) {
    |t.worlds| == |t.events| + 1 && forall i {:trigger StepAt(g, t, i)} :: 0 <= i < |t.events| ==> StepAt(g, t, i)
  }

  /** A run of a job that did not exist before. */
  ghost predicate IsRun(g: Graph, t: Trace) {
    RootedTree(g) && IsTrace(g, t) && t.worlds[0] == EMPTY
  }

  lemma StepAtKeepsInv(g: Graph, t: Trace, i: nat)
    requires RootedTree(g) && IsTrace(g, t) && i < |t.events| && Inv(g, t.worlds[i])
    ensures Inv(g, t.worlds[i + 1])
  {
    assert StepAt(g, t, i);
    StepKeepsInv(g, t.worlds[i], t.events[i]);
  }

  lemma {:induction false} TraceKeepsInv(g: Graph, t: Trace, i: nat)
    requires RootedTree(g) && IsTrace(g, t) && Inv(g, t.worlds[0]) && i < |t.worlds|
    ensures Inv(g, t.worlds[i])
  {
    if i > 0 {
      TraceKeepsInv(g, t, i - 1);
      StepAtKeepsInv(g, t, i - 1);
    }
  }

  lemma RunKeepsInv(g: Graph, t: Trace, i: nat)
    requires IsRun(g, t) && i < |t.worlds|
    ensures Inv(g, t.worlds[i])
  {
    EmptyInv(g);
    TraceKeepsInv(g, t, i);
  }

  /* ---------- the semaphore ---------- */

  /** The activities a step hands on, and the one it completes. */
  function Hands(g: Graph, e: Event): set<Aid> {
    match e
    case CreateJob => {g.trigger}
    case StartJob(chosen) => chosen
    case CommitPlain(_, chosen) => chosen
    case CommitDone(_, chosen) => chosen
    case _ => {}
  }

  function Completes(g: Graph, e: Event): set<Aid> {
    match e
    case StartJob(_) => {g.trigger}
    case CommitPlain(a, _) => {a}
    case CommitDone(a, _) => {a}
    case _ => {}
  }

  /** Who was handed on by the trigger or by a completing parent in the first `n` steps. */
  function HandedOn(g: Graph, events: seq<Event>, n: nat): set<Aid>
    requires n <= |events|
  {
    if n == 0 then {} else HandedOn(g, events, n - 1) + Hands(g, events[n - 1])
  }

  /** Who completed in the first `n` steps. */
  function Completed(g: Graph, events: seq<Event>, n: nat): set<Aid>
    requires n <= |events|
  {
    if n == 0 then {} else Completed(g, events, n - 1) + Completes(g, events[n - 1])
  }

  lemma {:induction false} LiveIsHandedOnMinusCompleted(g: Graph, t: Trace, n: nat)
    requires IsRun(g, t) && n < |t.worlds|
    ensures t.worlds[n].handed == HandedOn(g, t.events, n)
    ensures t.worlds[n].live == HandedOn(g, t.events, n) - Completed(g, t.events, n)
    ensures Completed(g, t.events, n) <= HandedOn(g, t.events, n)
  {
    hide After, Enabled, Hands, Completes, Inv, RootedTree;
    if n > 0 {
      var w, e := t.worlds[n - 1], t.events[n - 1];
      LiveIsHandedOnMinusCompleted(g, t, n - 1);
      RunKeepsInv(g, t, n - 1);
      assert StepAt(g, t, n - 1);
      LiveStep(g, w, e);
      HistoryStep(HandedOn(g, t.events, n - 1), Completed(g, t.events, n - 1), Hands(g, e), Completes(g, e), w.live);
    }
  }

  lemma HistoryStep<T>(handed: set<T>, done: set<T>, hands: set<T>, completes: set<T>, live: set<T>)
    requires live == handed - done && done <= handed
    requires hands !! handed && completes <= live
    ensures live - completes + hands == handed + hands - (done + completes)
    ensures done + completes <= handed + hands
  {
  }

  /** How one step moves the live set: what it hands on is new, what it completes was live. */
  ghost predicate Moves(g: Graph, w: World, e: Event, w': World) {
    && w'.handed == w.handed + Hands(g, e)
    && w'.live == w.live - Completes(g, e) + Hands(g, e)
    && Hands(g, e) !! w.handed && Hands(g, e) !! Completes(g, e) && Completes(g, e) <= w.live <= w.handed
  }

  lemma LiveStep(g: Graph, w: World, e: Event)
    requires RootedTree(g) && Inv(g, w) && Enabled(g, w, e)
    ensures Moves(g, w, e, After(g, w, e))
  {
    LiveSubset(g, w);
    EffectOnLive(g, w, e, After(g, w, e));
    if e.CommitPlain? || e.CommitDone? {
      FreshChildren(g, w, e.a, e.chosen);
    } else if e.StartJob? {
      assert TreeNode(g, g.trigger);
    }
  }

  lemma LiveSubset(g: Graph, w: World)
    requires Inv(g, w)
    ensures w.live <= w.handed
  {
    forall a | a in w.live ensures a in w.handed {
      assert ActivityInv(g, w, a);
    }
  }

  /** Attempts to enter a leg, and steps that end no activity, leave the live set alone. */
  lemma AttemptsMoveNothing(g: Graph, w: World, e: Event)
    requires Enabled(g, w, e) && (e.EnterLeg? || e.ReenterLeg?)
    ensures After(g, w, e).handed == w.handed && After(g, w, e).live == w.live
  {
  }

  lemma AttemptsKeepRest(g: Graph, w: World, e: Event)
    requires Enabled(g, w, e) && (e.EnterLeg? || e.ReenterLeg?)
    ensures var w' := After(g, w, e);
            w' == w.(hash := w'.hash, legs := w'.legs, counts := w'.counts)
  {
  }

  lemma ClosingMoves(g: Graph, w: World, e: Event)
    requires Enabled(g, w, e) && (e.CommitPlain? || e.CommitDone?)
    ensures After(g, w, e).handed == w.handed + Hands(g, e)
    ensures After(g, w, e).live == w.live - Completes(g, e) + Hands(g, e)
  {
    CloseMoves(w, e.a, if e.CommitPlain? then EarlyCompletion else Completion, e.chosen);
  }

  lemma CloseMoves(w: World, a: Aid, step: LedgerStep, chosen: set<Aid>)
    ensures Close(w, a, step, chosen).handed == w.handed + chosen
    ensures Close(w, a, step, chosen).live == w.live - {a} + chosen
  {
  }

  lemma OthersMoveNothing(g: Graph, w: World, e: Event)
    requires Enabled(g, w, e) && !e.EnterLeg? && !e.ReenterLeg?
    requires !e.CreateJob? && !e.StartJob? && !e.CommitPlain? && !e.CommitDone?
    ensures After(g, w, e).handed == w.handed && After(g, w, e).live == w.live
  {
  }

  lemma EffectOnLive(g: Graph, w: World, e: Event, w': World)
    requires Enabled(g, w, e) && JobInv(g, w) && w' == After(g, w, e)
    ensures w'.handed == w.handed + Hands(g, e)
    ensures w'.live == w.live - Completes(g, e) + Hands(g, e)
  {
    if e.EnterLeg? || e.ReenterLeg? {
      AttemptsMoveNothing(g, w, e);
    } else if e.CreateJob? || e.StartJob? {
      BirthMoves(g, w, e);
    } else if e.CommitPlain? || e.CommitDone? {
      ClosingMoves(g, w, e);
    } else {
      OthersMoveNothing(g, w, e);
    }
  }

  lemma BirthMoves(g: Graph, w: World, e: Event)
    requires Enabled(g, w, e) && JobInv(g, w) && (e.CreateJob? || e.StartJob?)
    ensures After(g, w, e).handed == w.handed + Hands(g, e)
    ensures After(g, w, e).live == w.live - Completes(g, e) + Hands(g, e)
  {
  }

  lemma FreshChildren(g: Graph, w: World, a: Aid, chosen: set<Aid>)
    requires RootedTree(g) && Inv(g, w) && a in w.legs && chosen <= Kids(g, a)
    ensures a in w.live && a !in chosen && chosen !! w.handed
  {
    assert ActivityInv(g, w, a);
    forall k | k in chosen ensures k !in w.handed && k != a {
      ChildIsFresh(g, w, a, k);
    }
  }

  /** In every run the semaphore is the number of activities handed on and not yet complete, so it is
      never negative; and the completion tasks are owed, run or lost with their engine exactly once
      if the job has started and nothing is live, and not at all otherwise. */
  lemma SemaphoreCountsLive(g: Graph, t: Trace, n: nat)
    requires IsRun(g, t) && n < |t.worlds|
    ensures var w := t.worlds[n];
            var live := HandedOn(g, t.events, n) - Completed(g, t.events, n);
            && (w.hash.status.Some? ==> w.hash.status.value == |live|)
            && w.owed + w.ran + w.lost == if w.started && live == {} then 1 else 0
  {
    RunKeepsInv(g, t, n);
    LiveIsHandedOnMinusCompleted(g, t, n);
  }

  /** The step that makes an engine owe the completion tasks is the one that empties the live set. */
  lemma CompletionIsOwedWhenLiveEmpties(g: Graph, w: World, e: Event, w': World)
    requires RootedTree(g) && Inv(g, w) && Enabled(g, w, e) && w' == After(g, w, e)
    ensures w'.owed + w'.ran + w'.lost > w.owed + w.ran + w.lost <==> w.live != {} && w'.live == {}
  {
    StepKeepsInv(g, w, e);
    LiveStep(g, w, e);
    StartedStep(g, w, e, w');
  }

  /** A job is started by its trigger's commit and stays started. */
  lemma StartedStep(g: Graph, w: World, e: Event, w': World)
    requires JobInv(g, w) && Enabled(g, w, e) && w' == After(g, w, e)
    ensures w'.started <==> w.started || e.StartJob?
    ensures w.published <= w'.published
    ensures e != CrashCompletion ==> w'.lost == w.lost
  {
    if e.EnterLeg? || e.ReenterLeg? {
      AttemptsKeepRest(g, w, e);
    }
  }

  lemma {:induction false} OnlyCrashesLose(g: Graph, t: Trace, n: nat)
    requires IsRun(g, t) && n < |t.worlds| && CrashCompletion !in t.events
    ensures t.worlds[n].lost == 0
  {
    if n > 0 {
      OnlyCrashesLose(g, t, n - 1);
      RunKeepsInv(g, t, n - 1);
      assert StepAt(g, t, n - 1);
      StartedStep(g, t.worlds[n - 1], t.events[n - 1], t.worlds[n]);
    }
  }

  /** If no engine dies while it owes them, the completion tasks run at most once, only once everything
      handed on has completed, and then they have run or are about to. */
  lemma CompletionTasksRunOnce(g: Graph, t: Trace, n: nat)
    requires IsRun(g, t) && n < |t.worlds| && CrashCompletion !in t.events
    ensures var w := t.worlds[n];
            var finished := w.started && HandedOn(g, t.events, n) == Completed(g, t.events, n);
            && w.ran <= 1
            && (w.ran == 1 ==> finished)
            && (finished && w.owed == 0 ==> w.ran == 1)
  {
    SemaphoreCountsLive(g, t, n);
    OnlyCrashesLose(g, t, n);
    LiveIsHandedOnMinusCompleted(g, t, n);
  }

  lemma FinishedStep(g: Graph, t: Trace, i: nat)
    requires IsRun(g, t) && i < |t.events| && t.worlds[i].started && t.worlds[i].live == {}
    ensures t.worlds[i + 1].started && t.worlds[i + 1].live == {} && t.worlds[i + 1].handed == t.worlds[i].handed
  {
    var w, e := t.worlds[i], t.events[i];
    RunKeepsInv(g, t, i);
    assert StepAt(g, t, i);
    LiveStep(g, w, e);
    StartedStep(g, w, e, t.worlds[i + 1]);
    NothingLiveHandsNothing(g, w, e);
  }

  /** A finished job stays finished, whatever is still delivered to it. */
  lemma {:induction false} FinishedStaysFinished(g: Graph, t: Trace, m: nat, n: nat)
    requires IsRun(g, t) && m <= n < |t.worlds|
    requires t.worlds[m].started && t.worlds[m].live == {}
    ensures t.worlds[n].started && t.worlds[n].live == {} && t.worlds[n].hash.status == Some(0)
    ensures t.worlds[n].handed == t.worlds[m].handed
  {
    RunKeepsInv(g, t, n);
    if m < n {
      FinishedStaysFinished(g, t, m, n - 1);
      FinishedStep(g, t, n - 1);
    }
  }

  lemma NothingLiveHandsNothing(g: Graph, w: World, e: Event)
    requires Inv(g, w) && w.started && w.live == {} && Enabled(g, w, e)
    ensures Hands(g, e) == {}
  {
    if e.CommitPlain? || e.CommitDone? {
      InLegIsLive(g, w, e.a);
    }
  }

  lemma {:induction false} RunGrows(g: Graph, t: Trace, m: nat, n: nat)
    requires IsRun(g, t) && m <= n < |t.worlds|
    ensures t.worlds[m].published <= t.worlds[n].published
    ensures t.worlds[m].handed * t.worlds[n].live <= t.worlds[m].live
    ensures t.worlds[m].handed <= t.worlds[n].handed
  {
    if m < n {
      var w, e := t.worlds[n - 1], t.events[n - 1];
      RunGrows(g, t, m, n - 1);
      RunKeepsInv(g, t, n - 1);
      assert StepAt(g, t, n - 1);
      LiveStep(g, w, e);
      StartedStep(g, w, e, t.worlds[n]);
    }
  }

  /** A worker event reads the semaphore, then re-enters. When the re-entry is let in, the semaphore it
      had read was positive: the test that drops events of a finished job never drops a live one. */
  lemma SemaphoreReadBeforeReentryIsPositive(g: Graph, t: Trace, m: nat, n: nat, a: Aid)
    requires IsRun(g, t) && m <= n < |t.worlds| && a in t.worlds[m].published
    requires MayReenter(Count(t.worlds[n], a)) && Passes(t.worlds[n], a, Reenter, Two)
    ensures t.worlds[m].hash.status.Some? && t.worlds[m].hash.status.value >= 1
  {
    var w, later := t.worlds[m], t.worlds[n];
    RunKeepsInv(g, t, m);
    RunKeepsInv(g, t, n);
    RunGrows(g, t, m, n);
    assert ActivityInv(g, w, a) && ActivityInv(g, later, a);
    ReenterGateDecides(g, later, a);
    assert a in later.live && a in w.live;
  }

  /** The assumption is needed: if two leg-2 deliveries of an activity both pass the re-entry test before either
      closes, both close it, and each counts its own children. The first closing balances the activity's own count
      in the semaphore; the second takes one away too many. */
  lemma OverlapClosesTwice(h: Hash, a: Aid, c: Counts, one: set<Aid>, two: set<Aid>)
    requires FieldsFit(c) && LegTwoOpen(c) && c.exits <= 8 && c.reentries + 1 < 999_999
    requires h.status.Some? && a in h.ledger && h.ledger[a] == Encode(c) && a !in one + two
    ensures var first := Collate(h, a, Delta(Reenter));
            var second := Collate(first, a, Delta(Reenter));
            var closed := CommitLeg(second, a, Completion, one, |one| - 1);
            var again := CommitLeg(closed, a, Completion, two, |two| - 1);
            && VerifyInteger(Stand(first, a), Two, EnterStage) == Pass
            && VerifyInteger(Stand(second, a), Two, EnterStage) == Pass
            && closed.status.value == h.status.value - 1 + |one|
            && again.status.value == h.status.value - 1 + |one| + (|two| - 1)
            && (h.status == Some(1) && one == two == {} ==> closed.status.value == 0 && again.status.value == -1)
  {
    LegTwoGate(c);
    LegTwoGate(c.Plus(Reenter));
  }

  /* ---------- progress ---------- */

  /** The number of activities in the subtree at `a`, itself included. */
  ghost function Size(g: Graph, a: Aid): nat
    requires RootedTree(g) && a in g.kids
    decreases g.deepest - g.depth[a]
  {
    assert TreeNode(g, a);
    assert forall k :: k in g.kids[a] ==> TreeNode(g, k);
    1 + Sum(g.kids[a], (k: Aid) requires k in g.kids[a] => Size(g, k))
  }

  /** The number of leaves of the subtree at `a`. */
  ghost function Leaves(g: Graph, a: Aid): (n: nat)
    requires RootedTree(g) && a in g.kids
    ensures n >= 1
    decreases g.deepest - g.depth[a]
  {
    assert TreeNode(g, a);
    assert forall k :: k in g.kids[a] ==> TreeNode(g, k);
    if g.kids[a] == {} then 1 else
      SumAtLeastSize(g.kids[a], (k: Aid) requires k in g.kids[a] => Leaves(g, k));
      Sum(g.kids[a], (k: Aid) requires k in g.kids[a] => Leaves(g, k))
  }

  ghost function SizeOf(g: Graph): Aid --> nat
    requires RootedTree(g)
  {
    (a: Aid) requires a in g.kids => Size(g, a)
  }

  ghost function LeavesOf(g: Graph): Aid --> nat
    requires RootedTree(g)
  {
    (a: Aid) requires a in g.kids => Leaves(g, a)
  }

  /** Replacing a node by some of its children strictly lowers the total subtree size and does not
      raise the total number of leaves. */
  lemma ReplaceByChildren(g: Graph, s: set<Aid>, a: Aid, chosen: set<Aid>)
    requires RootedTree(g) && s <= g.kids.Keys && a in s && chosen <= g.kids[a] && chosen !! s - {a}
    ensures chosen <= g.kids.Keys
    ensures Sum(s - {a} + chosen, SizeOf(g)) < Sum(s, SizeOf(g))
    ensures Sum(s - {a} + chosen, LeavesOf(g)) <= Sum(s, LeavesOf(g))
  {
    ChildrenInTree(g, a, g.kids[a]);
    var size, leaves := SizeOf(g), LeavesOf(g);
    SumTake(s, a, size);
    SumTake(s, a, leaves);
    SumUnion(s - {a}, chosen, size);
    SumUnion(s - {a}, chosen, leaves);
    SumSubset(chosen, g.kids[a], size);
    SumSubset(chosen, g.kids[a], leaves);
    SumAgree(g.kids[a], size, (k: Aid) requires k in g.kids[a] => Size(g, k));
    SumAgree(g.kids[a], leaves, (k: Aid) requires k in g.kids[a] => Leaves(g, k));
  }

  /** How many completions the first `n` steps contain. */
  function Completions(g: Graph, events: seq<Event>, n: nat): nat
    requires n <= |events|
  {
    if n == 0 then 0 else Completions(g, events, n - 1) + |Completes(g, events[n - 1])|
  }

  lemma ProgressStep(g: Graph, w: World, e: Event, w': World)
    requires RootedTree(g) && Inv(g, w) && Inv(g, w') && Moves(g, w, e, w') && Enabled(g, w, e) && e != CreateJob
    ensures w.live + w'.live <= g.kids.Keys
    ensures Sum(w'.live, SizeOf(g)) + |Completes(g, e)| <= Sum(w.live, SizeOf(g))
    ensures Sum(w'.live, LeavesOf(g)) <= Sum(w.live, LeavesOf(g))
  {
    if e.StartJob? {
      assert w.live == {g.trigger};
      ReplaceByChildren(g, w.live, g.trigger, e.chosen);
    } else if e.CommitPlain? || e.CommitDone? {
      ReplaceByChildren(g, w.live, e.a, e.chosen);
    } else {
      assert w'.live == w.live;
    }
  }

  /** Every completion strictly lowers the total subtree size of the live activities, so a job on a
      finite tree takes at most one completion per activity; and the semaphore never exceeds the
      number of leaves. */
  lemma {:induction false} CompletionsAreBounded(g: Graph, t: Trace, n: nat)
    requires IsRun(g, t) && n < |t.worlds|
    ensures t.worlds[n].live <= g.kids.Keys
    ensures Completions(g, t.events, n) + Sum(t.worlds[n].live, SizeOf(g)) <= Size(g, g.trigger)
    ensures |t.worlds[n].live| <= Sum(t.worlds[n].live, LeavesOf(g)) <= Leaves(g, g.trigger)
  {
    LiveInTree(g, t, n);
    SumAtLeastSize(t.worlds[n].live, LeavesOf(g));
    if n > 0 {
      CompletionsAreBounded(g, t, n - 1);
      ProgressAt(g, t, n - 1);
      if t.events[n - 1] == CreateJob {
        NothingBeforeCreation(g, t, n - 1);
      }
    }
  }

  lemma LiveInTree(g: Graph, t: Trace, n: nat)
    requires IsRun(g, t) && n < |t.worlds|
    ensures t.worlds[n].live <= g.kids.Keys
  {
    RunKeepsInv(g, t, n);
  }

  lemma {:induction false} NothingBeforeCreation(g: Graph, t: Trace, n: nat)
    requires IsRun(g, t) && n < |t.worlds| && t.worlds[n].hash.status == None
    ensures Completions(g, t.events, n) == 0
  {
    if n > 0 {
      NoCompletionBeforeCreation(g, t, n - 1);
      NothingBeforeCreation(g, t, n - 1);
    }
  }

  lemma NoCompletionBeforeCreation(g: Graph, t: Trace, i: nat)
    requires IsRun(g, t) && i < |t.events| && t.worlds[i + 1].hash.status == None
    ensures t.worlds[i].hash.status == None && Completes(g, t.events[i]) == {}
  {
    RunKeepsInv(g, t, i);
    RunKeepsInv(g, t, i + 1);
    assert StepAt(g, t, i);
    LiveStep(g, t.worlds[i], t.events[i]);
  }

  lemma ProgressAt(g: Graph, t: Trace, i: nat)
    requires IsRun(g, t) && i < |t.events|
    requires t.worlds[i].live <= g.kids.Keys
    ensures t.worlds[i + 1].live <= g.kids.Keys
    ensures t.events[i] == CreateJob ==>
      t.worlds[i].hash.status == None && Sum(t.worlds[i + 1].live, SizeOf(g)) == Size(g, g.trigger)
      && Sum(t.worlds[i + 1].live, LeavesOf(g)) == Leaves(g, g.trigger)
    ensures t.events[i] != CreateJob ==>
      Sum(t.worlds[i + 1].live, SizeOf(g)) + |Completes(g, t.events[i])| <= Sum(t.worlds[i].live, SizeOf(g))
      && Sum(t.worlds[i + 1].live, LeavesOf(g)) <= Sum(t.worlds[i].live, LeavesOf(g))
  {
    var w, e, w' := t.worlds[i], t.events[i], t.worlds[i + 1];
    RunKeepsInv(g, t, i);
    RunKeepsInv(g, t, i + 1);
    assert StepAt(g, t, i);
    LiveStep(g, w, e);
    if e == CreateJob {
      assert w'.live == {g.trigger} && w'.live - {g.trigger} == {};
      SumTake(w'.live, g.trigger, SizeOf(g));
      SumTake(w'.live, g.trigger, LeavesOf(g));
    } else {
      ProgressStep(g, w, e, w');
    }
  }
}
