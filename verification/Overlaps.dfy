/** Leg-2 deliveries of one activity that overlap between the re-entry test and the closing MULTI: the semaphore counts
    the live activities in every run exactly when no activity with a second leg has them. */
module Overlaps {
  import opened Options
  import opened Collator
  import opened JobRun
  import opened JobTheorems

  /** A world and, besides the engine in `world.legs`, the further engines that are in an activity's second leg. */
  datatype Crowd = Crowd(world: World, more: multiset<Aid>)

  datatype Move =
    | Usual(e: Event)                        // any step of JobRun
    | Overtake(a: Aid)                       // a re-entry while an engine is in the second leg already
    | CloseToo(a: Aid, chosen: set<Aid>)     // one of the further engines closes the activity

  const NOBODY := Crowd(EMPTY, multiset{})

  /** `overlaps` tells for which activities leg-2 deliveries may overlap. */
  predicate Can(g: Graph, c: Crowd, m: Move, overlaps: Aid -> bool) {
    match m
    case Usual(e) => Enabled(g, c.world, e)
    case Overtake(a) =>
      overlaps(a) && InLeg(c.world, a, Two) && KindOf(g, a) != Plain && MayReenter(Count(c.world, a))
    case CloseToo(a, chosen) => a in c.more && chosen <= Kids(g, a)
  }

  function Next(g: Graph, c: Crowd, m: Move, overlaps: Aid -> bool): Crowd
    requires Can(g, c, m, overlaps)
  {
    match m
    case Usual(e) => c.(world := After(g, c.world, e))
    case Overtake(a) =>
      Crowd(Step(c.world, a, Reenter), if Passes(c.world, a, Reenter, Two) then c.more + multiset{a} else c.more)
    case CloseToo(a, chosen) =>
      Crowd(Close(c.world, a, Completion, chosen).(legs := c.world.legs), c.more - multiset{a})
  }

  datatype Run = Run(crowds: seq<Crowd>, moves: seq<Move>)

  ghost predicate MoveAt(g: Graph, r: Run, i: nat, overlaps: Aid -> bool) {
    i < |r.moves| && i + 1 < |r.crowds|
    && Can(g, r.crowds[i], r.moves[i], overlaps) && r.crowds[i + 1] == Next(g, r.crowds[i], r.moves[i], overlaps)
  }

  ghost predicate IsOverlappingRun(g: Graph, r: Run, overlaps: Aid -> bool) {
    && |r.crowds| == |r.moves| + 1 && r.crowds[0] == NOBODY
    && forall i {:trigger MoveAt(g, r, i, overlaps)} :: 0 <= i < |r.moves| ==> MoveAt(g, r, i, overlaps)
  }

  /** The semaphore is the number of live activities, and the completion tasks are due once at most. */
  predicate Counts(w: World) {
    (w.hash.status.Some? ==> w.hash.status.value == |w.live|) && w.owed + w.ran + w.lost <= 1
  }

  ghost predicate AlwaysCounts(g: Graph, overlaps: Aid -> bool) {
    forall r: Run, i: nat {:trigger Counts(r.crowds[i].world), IsOverlappingRun(g, r, overlaps)} ::
      IsOverlappingRun(g, r, overlaps) && i < |r.crowds| ==> Counts(r.crowds[i].world)
  }

  /** No activity of the graph with a second leg has overlapping deliveries. */
  ghost predicate Serial(g: Graph, overlaps: Aid -> bool) {
    forall a {:trigger a in g.kids} :: a in g.kids && a != g.trigger && KindOf(g, a) != Plain ==> !overlaps(a)
  }

  /* ---------- without overlaps ---------- */

  lemma {:induction false} SerialRunKeepsInv(g: Graph, r: Run, i: nat, overlaps: Aid -> bool)
    requires RootedTree(g) && Serial(g, overlaps) && IsOverlappingRun(g, r, overlaps) && i < |r.crowds|
    ensures Inv(g, r.crowds[i].world) && r.crowds[i].more == multiset{}
  {
    hide Inv, Can, Next, RootedTree, Serial;
    if i == 0 {
      EmptyInv(g);
    } else {
      SerialRunKeepsInv(g, r, i - 1, overlaps);
      assert MoveAt(g, r, i - 1, overlaps);
      SerialMove(g, r.crowds[i - 1], r.moves[i - 1], overlaps);
    }
  }

  lemma SerialMove(g: Graph, c: Crowd, m: Move, overlaps: Aid -> bool)
    requires RootedTree(g) && Serial(g, overlaps) && Inv(g, c.world) && c.more == multiset{} && Can(g, c, m, overlaps)
    ensures Inv(g, Next(g, c, m, overlaps).world) && Next(g, c, m, overlaps).more == multiset{}
  {
    hide Inv, Enabled, After, RootedTree;
    match m
    case Usual(e) => StepKeepsInv(g, c.world, e);
    case Overtake(a) => InLegIsInTree(g, c.world, a);
    case CloseToo(a, _) =>
  }

  lemma InLegIsInTree(g: Graph, w: World, a: Aid)
    requires Inv(g, w) && a in w.legs
    ensures a in g.kids && a != g.trigger
  {
    InLegIsLive(g, w, a);
  }

  lemma SerialCounts(g: Graph, overlaps: Aid -> bool)
    requires RootedTree(g) && Serial(g, overlaps)
    ensures AlwaysCounts(g, overlaps)
  {
    forall r: Run, i: nat | IsOverlappingRun(g, r, overlaps) && i < |r.crowds| ensures Counts(r.crowds[i].world) {
      SerialRunKeepsInv(g, r, i, overlaps);
    }
  }

  /* ---------- a run that reaches any activity ---------- */

  ghost predicate Reached(g: Graph, c: Crowd, overlaps: Aid -> bool) {
    exists r {:trigger IsOverlappingRun(g, r, overlaps)} :: IsOverlappingRun(g, r, overlaps) && r.crowds[|r.moves|] == c
  }

  lemma Begin(g: Graph, overlaps: Aid -> bool)
    ensures Reached(g, NOBODY, overlaps)
  {
    var r := Run([NOBODY], []);
    assert IsOverlappingRun(g, r, overlaps) && r.crowds[|r.moves|] == NOBODY;
  }

  lemma Extends(g: Graph, r: Run, m: Move, c: Crowd, overlaps: Aid -> bool)
    requires IsOverlappingRun(g, r, overlaps) && Can(g, r.crowds[|r.moves|], m, overlaps)
    requires c == Next(g, r.crowds[|r.moves|], m, overlaps)
    ensures IsOverlappingRun(g, Run(r.crowds + [c], r.moves + [m]), overlaps)
  {
    hide Next, Can;
    var r' := Run(r.crowds + [c], r.moves + [m]);
    forall i | 0 <= i < |r'.moves| ensures MoveAt(g, r', i, overlaps) {
      if i < |r.moves| {
        assert MoveAt(g, r, i, overlaps);
      }
    }
  }

  lemma Go(g: Graph, c: Crowd, m: Move, overlaps: Aid -> bool) returns (c': Crowd)
    requires Reached(g, c, overlaps) && Can(g, c, m, overlaps)
    ensures c' == Next(g, c, m, overlaps) && Reached(g, c', overlaps)
  {
    hide Next, Can;
    c' := Next(g, c, m, overlaps);
    var r :| IsOverlappingRun(g, r, overlaps) && r.crowds[|r.moves|] == c;
    Extends(g, r, m, c', overlaps);
    var r' := Run(r.crowds + [c'], r.moves + [m]);
    assert IsOverlappingRun(g, r', overlaps) && r'.crowds[|r'.moves|] == c';
  }

  /** An engine's usual step in a world that keeps the invariant. */
  lemma GoUsual(g: Graph, w: World, e: Event, overlaps: Aid -> bool) returns (w': World)
    requires RootedTree(g) && Inv(g, w) && Enabled(g, w, e) && Reached(g, Crowd(w, multiset{}), overlaps)
    ensures w' == After(g, w, e) && Inv(g, w') && Reached(g, Crowd(w', multiset{}), overlaps)
  {
    w' := After(g, w, e);
    StepKeepsInv(g, w, e);
    hide Inv, Enabled, After, RootedTree, Reached;
    var c := Go(g, Crowd(w, multiset{}), Usual(e), overlaps);
  }

  /** Only `a` is live; `c` is what has happened to its ledger. */
  ghost predicate Alone(w: World, a: Aid, c: Counts) {
    w.live == {a} && a in w.published && Count(w, a) == c && w.ran == 0 && w.lost == 0
  }

  const ENTERED := ZERO.Plus(Enter)
  const WAITING := ZERO.Plus(Enter).Plus(AuthorizeReentry)
  const REENTERED := ZERO.Plus(Enter).Plus(AuthorizeReentry).Plus(Reenter)

  lemma Enters(g: Graph, w: World, a: Aid)
    requires Inv(g, w) && Alone(w, a, ZERO)
    ensures Enabled(g, w, EnterLeg(a))
    ensures Alone(After(g, w, EnterLeg(a)), a, ENTERED) && InLeg(After(g, w, EnterLeg(a)), a, One)
  {
    EnterGateDecides(g, w, a);
    hide Inv, VerifyInteger;
    assert After(g, w, EnterLeg(a)) == Attempt(w, a, Enter, One, true);
  }

  lemma Waits(g: Graph, w: World, a: Aid)
    requires Alone(w, a, ENTERED) && InLeg(w, a, One) && KindOf(g, a) != Plain
    ensures Enabled(g, w, CommitWaiting(a))
    ensures Alone(After(g, w, CommitWaiting(a)), a, WAITING) && a !in After(g, w, CommitWaiting(a)).legs
  {
    HoldLedgerOf(w, a, AuthorizeReentry, {}, a);
  }

  lemma Reenters(g: Graph, w: World, a: Aid)
    requires Inv(g, w) && Alone(w, a, WAITING) && a !in w.legs && KindOf(g, a) != Plain
    ensures Enabled(g, w, ReenterLeg(a))
    ensures Alone(After(g, w, ReenterLeg(a)), a, REENTERED) && InLeg(After(g, w, ReenterLeg(a)), a, Two)
  {
    ReenterGateDecides(g, w, a);
    hide Inv, VerifyInteger;
    assert After(g, w, ReenterLeg(a)) == Attempt(w, a, Reenter, Two, true);
  }

  /** The closing step hands on the one child. */
  ghost predicate HandedTo(w: World, a: Aid, k: Aid) {
    w.live == {k} && a in w.outbox && k in w.outbox[a] && Count(w, k) == ZERO && w.ran == 0 && w.lost == 0
  }

  lemma ClosesFor(g: Graph, w: World, a: Aid, step: LedgerStep, c: Counts, k: Aid)
    requires RootedTree(g) && Alone(w, a, c) && k in Kids(g, a)
    ensures HandedTo(Close(w, a, step, {k}), a, k)
  {
    assert TreeNode(g, a);
    CloseLedgerOf(w, a, step, {k}, k);
    hide CommitLeg, RootedTree;
  }

  lemma CommitsAreCloses(g: Graph, w: World, a: Aid, chosen: set<Aid>)
    requires chosen <= Kids(g, a)
    ensures InLeg(w, a, One) && KindOf(g, a) == Plain ==>
      Enabled(g, w, CommitPlain(a, chosen))
          && After(g, w, CommitPlain(a, chosen)) == Close(w, a, EarlyCompletion, chosen)
    ensures InLeg(w, a, Two) ==>
      Enabled(g, w, CommitDone(a, chosen)) && After(g, w, CommitDone(a, chosen)) == Close(w, a, Completion, chosen)
  {
    hide Close, Hold, Attempt, Start;
  }

  lemma CommitsPlain(g: Graph, w: World, a: Aid, k: Aid)
    requires RootedTree(g) && k in Kids(g, a) && Alone(w, a, ENTERED) && InLeg(w, a, One) && KindOf(g, a) == Plain
    ensures Enabled(g, w, CommitPlain(a, {k})) && HandedTo(After(g, w, CommitPlain(a, {k})), a, k)
  {
    hide RootedTree, HandedTo, Alone, Close, Kids, KindOf, Enabled, After, InLeg;
    CommitsAreCloses(g, w, a, {k});
    ClosesFor(g, w, a, EarlyCompletion, ENTERED, k);
  }

  lemma CommitsDone(g: Graph, w: World, a: Aid, k: Aid)
    requires RootedTree(g) && k in Kids(g, a) && Alone(w, a, REENTERED) && InLeg(w, a, Two)
    ensures Enabled(g, w, CommitDone(a, {k})) && HandedTo(After(g, w, CommitDone(a, {k})), a, k)
  {
    hide RootedTree, HandedTo, Alone, Close, Kids, KindOf, Enabled, After, InLeg;
    CommitsAreCloses(g, w, a, {k});
    ClosesFor(g, w, a, Completion, REENTERED, k);
  }

  lemma Arrives(g: Graph, w: World, a: Aid, k: Aid, overlaps: Aid -> bool) returns (w': World)
    requires RootedTree(g) && Inv(g, w) && Reached(g, Crowd(w, multiset{}), overlaps) && HandedTo(w, a, k)
    ensures Inv(g, w') && Reached(g, Crowd(w', multiset{}), overlaps) && Alone(w', k, ZERO)
  {
    hide Inv, RootedTree, Reached;
    w' := GoUsual(g, w, Publish(a), overlaps);
  }

  lemma ReachesLegTwo(g: Graph, w: World, a: Aid, overlaps: Aid -> bool) returns (w': World)
    requires RootedTree(g) && Inv(g, w) && Reached(g, Crowd(w, multiset{}), overlaps)
    requires Alone(w, a, ZERO) && KindOf(g, a) != Plain
    ensures Inv(g, w') && Reached(g, Crowd(w', multiset{}), overlaps) && Alone(w', a, REENTERED) && InLeg(w', a, Two)
  {
    hide Inv, RootedTree, Reached, Alone, Enabled, After;
    Enters(g, w, a);
    w' := GoUsual(g, w, EnterLeg(a), overlaps);
    Waits(g, w', a);
    w' := GoUsual(g, w', CommitWaiting(a), overlaps);
    Reenters(g, w', a);
    w' := GoUsual(g, w', ReenterLeg(a), overlaps);
  }

  /** A live activity, of whatever kind, hands on to one of its children. */
  lemma PassesOn(g: Graph, w: World, a: Aid, k: Aid, overlaps: Aid -> bool) returns (w': World)
    requires RootedTree(g) && Inv(g, w) && Reached(g, Crowd(w, multiset{}), overlaps)
    requires Alone(w, a, ZERO) && k in Kids(g, a)
    ensures Inv(g, w') && Reached(g, Crowd(w', multiset{}), overlaps) && Alone(w', k, ZERO)
  {
    hide Inv, RootedTree, Reached, Alone, Enabled, After, HandedTo, Kids;
    if KindOf(g, a) == Plain {
      Enters(g, w, a);
      w' := GoUsual(g, w, EnterLeg(a), overlaps);
      CommitsPlain(g, w', a, k);
      w' := GoUsual(g, w', CommitPlain(a, {k}), overlaps);
    } else {
      w' := ReachesLegTwo(g, w, a, overlaps);
      CommitsDone(g, w', a, k);
      w' := GoUsual(g, w', CommitDone(a, {k}), overlaps);
    }
    w' := Arrives(g, w', a, k, overlaps);
  }

  lemma StartsWith(g: Graph, k: Aid)
    requires RootedTree(g) && k in Kids(g, g.trigger)
    ensures var w := After(g, EMPTY, CreateJob);
      Enabled(g, w, StartJob({k})) && HandedTo(After(g, w, StartJob({k})), g.trigger, k)
  {
    assert TreeNode(g, g.trigger);
    hide Seed, RootedTree;
  }

  lemma {:induction false} Reaches(g: Graph, a: Aid, overlaps: Aid -> bool) returns (w: World)
    requires RootedTree(g) && a in g.kids && a != g.trigger
    ensures Inv(g, w) && Reached(g, Crowd(w, multiset{}), overlaps) && Alone(w, a, ZERO)
    decreases if a in g.depth then g.depth[a] else 0
  {
    assert TreeNode(g, a);
    var p := g.parent[a];
    assert TreeNode(g, p);
    if p == g.trigger {
      EmptyInv(g);
      Begin(g, overlaps);
      StartsWith(g, a);
      hide Inv, RootedTree, Reached;
      w := GoUsual(g, EMPTY, CreateJob, overlaps);
      w := GoUsual(g, w, StartJob({a}), overlaps);
      w := Arrives(g, w, p, a, overlaps);
    } else {
      w := Reaches(g, p, overlaps);
      w := PassesOn(g, w, p, a, overlaps);
    }
  }

  /* ---------- with overlaps ---------- */

  /** Both engines are let in. */
  lemma BothEnter(g: Graph, w: World, a: Aid, overlaps: Aid -> bool)
    requires Inv(g, w) && overlaps(a) && Alone(w, a, REENTERED) && InLeg(w, a, Two) && KindOf(g, a) != Plain
    ensures var c := Crowd(w, multiset{});
      && Can(g, c, Overtake(a), overlaps)
      && Next(g, c, Overtake(a), overlaps) == Crowd(Step(w, a, Reenter), multiset{a})
    ensures w.hash.status == Some(1)
  {
    ReenterGateDecides(g, w, a);
  }

  lemma CommitLegStatus(h: Hash, a: Aid, step: LedgerStep, chosen: set<Aid>, amount: int)
    requires h.status.Some?
    ensures CommitLeg(h, a, step, chosen, amount).status == Some(h.status.value + amount)
  {
    assert Seed(h, chosen).status == h.status;
    hide Seed;
  }

  lemma CloseStatus(w: World, a: Aid, step: LedgerStep)
    requires w.hash.status.Some?
    ensures Close(w, a, step, {}).hash.status == Some(w.hash.status.value - 1)
  {
    hide CommitLeg, Recount;
    var none: set<Aid> := {};
    CommitLegStatus(w.hash, a, step, none, |none| - 1);
  }

  /** Both close. */
  lemma BothClose(g: Graph, w: World, a: Aid, overlaps: Aid -> bool)
    requires w.hash.status == Some(1) && InLeg(w, a, Two)
    ensures var c, m, m' := Crowd(w, multiset{a}), Usual(CommitDone(a, {})), CloseToo(a, {});
      && Can(g, c, m, overlaps) && Can(g, Next(g, c, m, overlaps), m', overlaps)
      && Next(g, Next(g, c, m, overlaps), m', overlaps).world.hash.status == Some(-1)
  {
    hide Close, After, Enabled, InLeg, Kids;
    var closed := Close(w, a, Completion, {});
    CommitsAreCloses(g, w, a, {});
    CloseStatus(w, a, Completion);
    CloseStatus(closed, a, Completion);
  }

  lemma OvertakenClose(g: Graph, w: World, a: Aid, overlaps: Aid -> bool) returns (c: Crowd)
    requires RootedTree(g) && Inv(g, w) && Reached(g, Crowd(w, multiset{}), overlaps) && overlaps(a)
    requires Alone(w, a, REENTERED) && InLeg(w, a, Two) && KindOf(g, a) != Plain
    ensures Reached(g, c, overlaps) && !Counts(c.world)
  {
    BothEnter(g, w, a, overlaps);
    BothClose(g, Step(w, a, Reenter), a, overlaps);
    hide Inv, RootedTree, Reached, Next, Can, Alone;
    c := Go(g, Crowd(w, multiset{}), Overtake(a), overlaps);
    c := Go(g, c, Usual(CommitDone(a, {})), overlaps);
    c := Go(g, c, CloseToo(a, {}), overlaps);
  }

  /** With overlapping deliveries of any one activity there is a run in which both close it: the semaphore falls below
      the number of live activities, and the completion tasks are due twice. */
  lemma OverlapMiscounts(g: Graph, a: Aid, overlaps: Aid -> bool)
    requires RootedTree(g) && a in g.kids && a != g.trigger && KindOf(g, a) != Plain && overlaps(a)
    ensures !AlwaysCounts(g, overlaps)
  {
    hide Inv, RootedTree, Counts, Alone, InLeg;
    var w := Reaches(g, a, overlaps);
    w := ReachesLegTwo(g, w, a, overlaps);
    var c := OvertakenClose(g, w, a, overlaps);
    var r :| IsOverlappingRun(g, r, overlaps) && r.crowds[|r.moves|] == c;
    assert !Counts(r.crowds[|r.moves|].world);
  }

  /** In every run the semaphore counts the live activities and the completion tasks are due once, if and only if no
      activity with a second leg has overlapping deliveries. */
  lemma SemaphoreCountsLiveExactly(g: Graph, overlaps: Aid -> bool)
    requires RootedTree(g)
    ensures AlwaysCounts(g, overlaps) <==> Serial(g, overlaps)
  {
    if Serial(g, overlaps) {
      SerialCounts(g, overlaps);
    } else {
      var a :| a in g.kids && a != g.trigger && KindOf(g, a) != Plain && overlaps(a);
      OverlapMiscounts(g, a, overlaps);
    }
  }
}
