/** One job as many engines run it: every step is one atomic Redis command or MULTI on the job's hash,
    taken by any engine at any time. The ghost part of a World records which activities were handed on. */
module JobRun {
  import opened Options
  import opened Collator
  import opened Sums

  type Aid = string

  /** How an activity uses its second leg. `Plain` completes in leg 1 (activities without a hook). */
  datatype Kind = Plain | Hook | Worker | Await

  /** The activities of one graph: a tree below its trigger, one parent each. */
  datatype Graph = Graph(trigger: Aid, kids: map<Aid, set<Aid>>, parent: map<Aid, Aid>, kind: map<Aid, Kind>,
                         depth: map<Aid, nat>, deepest: nat)

  ghost predicate TreeNode(g: Graph, a: Aid) {
    && (a in g.kids <==> a == g.trigger || a in g.parent)
    && (a in g.kids <==> a in g.kind) && (a in g.kids <==> a in g.depth)
    && a !in Kids(g, a)
    && (a in g.kids ==> g.depth[a] <= g.deepest)
    && (a in g.parent ==>
          && a != g.trigger && g.parent[a] in g.depth && a in Kids(g, g.parent[a])
          && g.depth[a] == g.depth[g.parent[a]] + 1)
    && (forall k :: k in Kids(g, a) ==> k in g.parent && g.parent[k] == a)
  }

  ghost predicate RootedTree(g: Graph) {
    g.trigger in g.kids && forall a {:trigger TreeNode(g, a)} :: TreeNode(g, a)
  }

  function Kids(g: Graph, a: Aid): set<Aid> {
    if a in g.kids then g.kids[a] else {}
  }

  function KindOf(g: Graph, a: Aid): Kind {
    if a in g.kind then g.kind[a] else Plain
  }

  /* ---------- the job hash ---------- */

  /** The fields that coordinate engines: `:` (the semaphore) and each activity's ledger. */
  datatype Hash = Hash(status: Option<int>, ledger: map<Aid, int>)

  /** HINCRBYFLOAT: an absent field counts as zero. */
  function Stand(h: Hash, a: Aid): int {
    if a in h.ledger then h.ledger[a] else 0
  }

  function Collate(h: Hash, a: Aid, amount: int): Hash {
    h.(ledger := h.ledger[a := Stand(h, a) + amount])
  }

  function AddStatus(h: Hash, amount: int): Hash {
    h.(status := Some((if h.status.Some? then h.status.value else 0) + amount))
  }

  /** HSET of the ledgers of the activities that may be entered next. */
  function Seed(h: Hash, chosen: set<Aid>): Hash {
    h.(ledger := map a | a in h.ledger.Keys + chosen :: if a in chosen then SEED else h.ledger[a])
  }

  /** The MULTI that ends a leg: save state and seed children, step the ledger, move the semaphore. */
  function CommitLeg(h: Hash, a: Aid, step: LedgerStep, chosen: set<Aid>, amount: int): Hash {
    AddStatus(Collate(Seed(h, chosen), a, Delta(step)), amount)
  }

  /** What the trigger writes once the job exists: the number of children, their seeds, its own closed ledger. */
  function StartHash(h: Hash, trigger: Aid, chosen: set<Aid>): Hash {
    var seeded := Seed(h, chosen);
    Hash(Some(|chosen|), seeded.ledger[trigger := TRIGGER_SEED])
  }

  /* ---------- the world around the hash ---------- */

  datatype World = World(
    hash: Hash,
    legs: map<Aid, Leg>,         // the leg some engine is executing for an activity
    outbox: map<Aid, set<Aid>>,  // children committed by an engine that has not yet published them
    published: set<Aid>,         // activities whose transition message is in the stream
    owed: nat,                   // engines about to run the completion tasks
    ran: nat,                    // completion tasks run
    lost: nat,                   // engines that died before running them
    started: bool,               // the trigger has committed
    live: set<Aid>,              // handed on and not yet complete
    handed: set<Aid>,            // ever handed on
    counts: map<Aid, Counts>)    // what happened to each seeded ledger

  const EMPTY := World(Hash(None, map[]), map[], map[], {}, 0, 0, 0, false, {}, {}, map[])

  datatype Event =
    | CreateJob
    | StartJob(chosen: set<Aid>)
    | EnterLeg(a: Aid)
    | CommitPlain(a: Aid, chosen: set<Aid>)
    | CommitWaiting(a: Aid)
    | ReenterLeg(a: Aid)
    | CommitPending(a: Aid, chosen: set<Aid>)
    | CommitDone(a: Aid, chosen: set<Aid>)
    | Publish(a: Aid)
    | RunCompletionTasks
    | CrashLeg(a: Aid)
    | CrashOutbox(a: Aid)
    | CrashCompletion

  /** What happened to an activity's ledger since it was seeded. */
  function Count(w: World, a: Aid): Counts {
    if a in w.counts then w.counts[a] else ZERO
  }

  predicate InLeg(w: World, a: Aid, leg: Leg) {
    a in w.legs && w.legs[a] == leg
  }

  /** The re-entry count keeps its six digits, and the ledger is not one that reopens. */
  predicate MayReenter(c: Counts) {
    c.reentries < 999_999 && !Reopens(c)
  }

  /** A transition message or a leg-2 event may be delivered at any time and any number of times once the
      activity's transition has been published. The one thing assumed is that two leg-2 deliveries of one
      activity do not overlap between the re-entry test and the closing MULTI. */
  predicate Enabled(g: Graph, w: World, e: Event) {
    match e
    case CreateJob => w.hash.status == None
    case StartJob(chosen) => w.hash.status.Some? && !w.started && chosen <= Kids(g, g.trigger)
    case EnterLeg(a) => a in w.published
    case CommitPlain(a, chosen) => InLeg(w, a, One) && KindOf(g, a) == Plain && chosen <= Kids(g, a)
    case CommitWaiting(a) => InLeg(w, a, One) && KindOf(g, a) != Plain
    case ReenterLeg(a) =>
      a in w.published && KindOf(g, a) != Plain && !InLeg(w, a, Two) && MayReenter(Count(w, a))
    case CommitPending(a, chosen) => InLeg(w, a, Two) && KindOf(g, a) == Worker && chosen <= Kids(g, a)
    case CommitDone(a, chosen) => InLeg(w, a, Two) && chosen <= Kids(g, a)
    case Publish(a) => a in w.outbox
    case RunCompletionTasks => w.owed > 0
    case CrashLeg(a) => a in w.legs
    case CrashOutbox(a) => a in w.outbox
    case CrashCompletion => w.owed > 0
  }

  function Recount(counts: map<Aid, Counts>, chosen: set<Aid>): map<Aid, Counts> {
    map a | a in counts.Keys + chosen :: if a in chosen then ZERO else counts[a]
  }

  /** One addition to a ledger, counted. */
  function Step(w: World, a: Aid, step: LedgerStep): World {
    w.(hash := Collate(w.hash, a, Delta(step)), counts := w.counts[a := Count(w, a).Plus(step)])
  }

  /** An entry attempt: the addition always happens; the leg starts only if the gate passes. */
  function Attempt(w: World, a: Aid, step: LedgerStep, leg: Leg, pass: bool): World {
    var w' := Step(w, a, step);
    if pass then w'.(legs := w.legs[a := leg]) else w'
  }

  predicate Passes(w: World, a: Aid, step: LedgerStep, leg: Leg) {
    VerifyInteger(Stand(w.hash, a) + Delta(step), leg, EnterStage) == Pass
  }

  /** The MULTI that ends a leg without ending the activity. */
  function Hold(w: World, a: Aid, step: LedgerStep, chosen: set<Aid>): World {
    w.(hash := CommitLeg(w.hash, a, step, chosen, 0), legs := w.legs - {a},
       counts := Recount(w.counts, chosen)[a := Count(w, a).Plus(step)])
  }

  /** The MULTI that ends the activity and hands on to the chosen children. The engine then holds the
      messages to publish or, with no children and the semaphore spent, the completion tasks. */
  function Close(w: World, a: Aid, step: LedgerStep, chosen: set<Aid>): World {
    var hash := CommitLeg(w.hash, a, step, chosen, |chosen| - 1);
    w.(hash := hash, legs := w.legs - {a},
       live := w.live - {a} + chosen, handed := w.handed + chosen,
       counts := Recount(w.counts, chosen)[a := Count(w, a).Plus(step)],
       outbox := if chosen != {} then w.outbox[a := chosen] else w.outbox,
       owed := if chosen == {} && hash.status.value <= 0 then w.owed + 1 else w.owed)
  }

  function Start(g: Graph, w: World, chosen: set<Aid>): World {
    w.(hash := StartHash(w.hash, g.trigger, chosen), started := true,
       live := chosen, handed := w.handed + chosen,
       counts := Recount(w.counts, chosen)[g.trigger := Counts(1, 1, 1, 1, 1)],
       outbox := if chosen != {} then w.outbox[g.trigger := chosen] else w.outbox,
       owed := if chosen == {} then w.owed + 1 else w.owed)
  }

  /** One atomic step. */
  function After(g: Graph, w: World, e: Event): World
    requires Enabled(g, w, e)
  {
    match e
    case CreateJob => w.(hash := w.hash.(status := Some(1)), live := {g.trigger}, handed := {g.trigger})
    case StartJob(chosen) => Start(g, w, chosen)
    case EnterLeg(a) => Attempt(w, a, Enter, One, Passes(w, a, Enter, One))
    case CommitPlain(a, chosen) => Close(w, a, EarlyCompletion, chosen)
    case CommitWaiting(a) => Hold(w, a, AuthorizeReentry, {})
    case ReenterLeg(a) => Attempt(w, a, Reenter, Two, Passes(w, a, Reenter, Two))
    case CommitPending(a, chosen) => Hold(w, a, Continuation, chosen)
    case CommitDone(a, chosen) => Close(w, a, Completion, chosen)
    case Publish(a) => w.(published := w.published + w.outbox[a], outbox := w.outbox - {a})
    case RunCompletionTasks => w.(owed := w.owed - 1, ran := w.ran + 1)
    case CrashLeg(a) => w.(legs := w.legs - {a})
    case CrashOutbox(a) => w.(outbox := w.outbox - {a})
    case CrashCompletion => w.(owed := w.owed - 1, lost := w.lost + 1)
  }

  /* ---------- the invariant ---------- */

  ghost predicate LedgerInv(g: Graph, w: World, a: Aid) {
    var c := Count(w, a);
    && (a in w.counts ==> a in w.hash.ledger && w.hash.ledger[a] == Encode(c))
    && c.exits <= 1 && c.completions <= c.exits && c.finishes <= c.reentries <= 999_999
    && (KindOf(g, a) == Plain && a != g.trigger ==> c.reentries <= c.exits)
  }

  ghost predicate LegInv(w: World, a: Aid) {
    var c := Count(w, a);
    && (InLeg(w, a, One) ==> c.entries >= 1 && c.exits == 0)
    && (InLeg(w, a, Two) ==> c.exits == 1 && c.finishes < c.reentries)
    && (a in w.legs ==> a in w.live && a in w.published)
  }

  ghost predicate HandInv(g: Graph, w: World, a: Aid) {
    && (a in w.live ==> a in w.handed)
    && (a !in w.handed ==> Count(w, a) == ZERO)
    && (a in w.handed && a != g.trigger ==>
          && a in w.counts && a in g.parent
          && (a in w.live <==> Count(w, a).completions == 0)
          && g.parent[a] in w.handed && g.parent[a] !in w.live)
    && (a in w.published ==> a in w.handed && a != g.trigger)
    && (a in w.outbox ==> w.outbox[a] <= w.handed - {g.trigger})
  }

  ghost predicate ActivityInv(g: Graph, w: World, a: Aid)
  {
    LedgerInv(g, w, a) && LegInv(w, a) && HandInv(g, w, a)
  }

  ghost predicate Confined(g: Graph, w: World) {
    && w.live <= g.kids.Keys && w.handed <= g.kids.Keys && w.published <= g.kids.Keys
    && w.legs.Keys <= g.kids.Keys && w.outbox.Keys <= g.kids.Keys && w.counts.Keys <= g.kids.Keys
  }

  /** The semaphore is the number of live activities; the completion tasks are owed, run or lost
      exactly once, and only when nothing is live. */
  ghost predicate JobInv(g: Graph, w: World) {
    && (w.hash.status.None? ==> w == EMPTY)
    && (w.hash.status.Some? ==> g.trigger in w.handed && w.hash.status.value == |w.live|)
    && (w.started ==> g.trigger !in w.live)
    && (!w.started && w.hash.status.Some? ==>
        w == EMPTY.(hash := Hash(Some(1), map[]), live := {g.trigger}, handed := {g.trigger}))
    && w.owed + w.ran + w.lost == if w.started && w.live == {} then 1 else 0
  }

  ghost predicate Inv(g: Graph, w: World) {
    && Confined(g, w) && JobInv(g, w)
    && forall a {:trigger ActivityInv(g, w, a)} :: ActivityInv(g, w, a)
  }

  lemma EmptyInv(g: Graph)
    requires RootedTree(g)
    ensures Inv(g, EMPTY)
  {
  }

  lemma CreateKeepsInv(g: Graph, w: World)
    requires RootedTree(g) && Inv(g, w) && Enabled(g, w, CreateJob)
    ensures Inv(g, After(g, w, CreateJob))
  {
  }

  /** Children of a live activity were never handed on. */
  lemma ChildIsFresh(g: Graph, w: World, a: Aid, k: Aid)
    requires RootedTree(g) && Inv(g, w) && a in w.live && k in Kids(g, a)
    ensures k !in w.handed && k != a && k != g.trigger
    ensures k in g.parent && g.parent[k] == a
    ensures Count(w, k) == ZERO
  {
    assert TreeNode(g, a) && TreeNode(g, k) && ActivityInv(g, w, k) && ActivityInv(g, w, a);
  }

  predicate AttemptOk(g: Graph, w: World, a: Aid, step: LedgerStep, leg: Leg, pass: bool) {
    && a in w.published
    && ((step == Enter && leg == One && (pass ==> Count(w, a) == ZERO))
        || (step == Reenter && leg == Two && KindOf(g, a) != Plain && !InLeg(w, a, Two)
            && MayReenter(Count(w, a)) && (pass ==> LegTwoOpen(Count(w, a)))))
  }

  lemma AttemptKeepsLedger(g: Graph, w: World, a: Aid, step: LedgerStep, leg: Leg, pass: bool, b: Aid)
    requires ActivityInv(g, w, a) && ActivityInv(g, w, b) && AttemptOk(g, w, a, step, leg, pass)
    requires a in w.counts
    ensures LedgerInv(g, Attempt(w, a, step, leg, pass), b)
  {
    assert Encode(Count(w, a).Plus(step)) == Encode(Count(w, a)) + Delta(step);
  }

  lemma AttemptKeepsLeg(g: Graph, w: World, a: Aid, step: LedgerStep, leg: Leg, pass: bool, b: Aid)
    requires ActivityInv(g, w, a) && ActivityInv(g, w, b) && AttemptOk(g, w, a, step, leg, pass)
    requires a in w.counts && (pass ==> a in w.live)
    ensures LegInv(Attempt(w, a, step, leg, pass), b)
  {
  }

  lemma AttemptKeepsActivity(g: Graph, w: World, a: Aid, step: LedgerStep, leg: Leg, pass: bool, b: Aid)
    requires Inv(g, w) && AttemptOk(g, w, a, step, leg, pass)
    ensures ActivityInv(g, Attempt(w, a, step, leg, pass), b)
  {
    assert ActivityInv(g, w, a) && ActivityInv(g, w, b);
    AttemptKeepsLedger(g, w, a, step, leg, pass, b);
    AttemptKeepsLeg(g, w, a, step, leg, pass, b);
  }

  lemma AttemptKeepsInv(g: Graph, w: World, a: Aid, step: LedgerStep, leg: Leg, pass: bool)
    requires Inv(g, w) && AttemptOk(g, w, a, step, leg, pass)
    ensures Inv(g, Attempt(w, a, step, leg, pass))
  {
    forall b ensures ActivityInv(g, Attempt(w, a, step, leg, pass), b) {
      AttemptKeepsActivity(g, w, a, step, leg, pass, b);
    }
    assert ActivityInv(g, w, a);
  }

  predicate HoldOk(g: Graph, w: World, a: Aid, step: LedgerStep, chosen: set<Aid>) {
    && chosen <= Kids(g, a)
    && ((InLeg(w, a, One) && step == AuthorizeReentry && KindOf(g, a) != Plain)
        || (InLeg(w, a, Two) && step == Continuation))
  }

  lemma HoldLedgerOf(w: World, a: Aid, step: LedgerStep, chosen: set<Aid>, b: Aid)
    requires a !in chosen
    ensures var w' := Hold(w, a, step, chosen);
            && Count(w', b) == (if b == a then Count(w, a).Plus(step) else if b in chosen then ZERO else Count(w, b))
            && (b in w'.counts <==> b == a || b in chosen || b in w.counts)
            && (b in w'.hash.ledger <==> b == a || b in chosen || b in w.hash.ledger)
            && Stand(w'.hash, b)
               == (if b == a then Stand(w.hash, a) + Delta(step) else if b in chosen then SEED else Stand(w.hash, b))
  {
  }

  lemma HoldKeepsLedger(g: Graph, w: World, a: Aid, step: LedgerStep, chosen: set<Aid>, b: Aid)
    requires ActivityInv(g, w, a) && ActivityInv(g, w, b) && HoldOk(g, w, a, step, chosen)
    requires a in w.counts && a !in chosen
    ensures LedgerInv(g, Hold(w, a, step, chosen), b)
  {
    HoldLedgerOf(w, a, step, chosen, b);
    if b == a {
      assert Encode(Count(w, a).Plus(step)) == Encode(Count(w, a)) + Delta(step);
    }
  }

  lemma HoldKeepsLeg(g: Graph, w: World, a: Aid, step: LedgerStep, chosen: set<Aid>, b: Aid)
    requires ActivityInv(g, w, b) && HoldOk(g, w, a, step, chosen) && a !in chosen
    requires b in chosen ==> b !in w.handed
    ensures LegInv(Hold(w, a, step, chosen), b)
  {
    HoldLedgerOf(w, a, step, chosen, b);
  }

  lemma HoldKeepsHand(g: Graph, w: World, a: Aid, step: LedgerStep, chosen: set<Aid>, b: Aid)
    requires ActivityInv(g, w, b) && HoldOk(g, w, a, step, chosen) && a !in chosen && a in w.handed
    requires b in chosen ==> b !in w.handed
    ensures HandInv(g, Hold(w, a, step, chosen), b)
  {
    HoldLedgerOf(w, a, step, chosen, b);
  }

  lemma HoldKeepsActivity(g: Graph, w: World, a: Aid, step: LedgerStep, chosen: set<Aid>, b: Aid)
    requires RootedTree(g) && Inv(g, w) && HoldOk(g, w, a, step, chosen)
    ensures ActivityInv(g, Hold(w, a, step, chosen), b)
  {
    InLegIsLive(g, w, a);
    assert ActivityInv(g, w, b);
    assert a !in chosen by {
      assert TreeNode(g, a);
    }
    if b in chosen {
      ChildIsFresh(g, w, a, b);
    }
    HoldKeepsLedger(g, w, a, step, chosen, b);
    HoldKeepsLeg(g, w, a, step, chosen, b);
    HoldKeepsHand(g, w, a, step, chosen, b);
  }

  lemma InLegIsLive(g: Graph, w: World, a: Aid)
    requires Inv(g, w) && a in w.legs
    ensures ActivityInv(g, w, a) && a in w.live && a in w.handed && a in w.counts && a != g.trigger
  {
    assert ActivityInv(g, w, a);
  }

  lemma HoldKeepsInv(g: Graph, w: World, a: Aid, step: LedgerStep, chosen: set<Aid>)
    requires RootedTree(g) && Inv(g, w) && HoldOk(g, w, a, step, chosen)
    ensures Inv(g, Hold(w, a, step, chosen))
  {
    forall b ensures ActivityInv(g, Hold(w, a, step, chosen), b) {
      HoldKeepsActivity(g, w, a, step, chosen, b);
    }
    assert ActivityInv(g, w, a);
    ChildrenInTree(g, a, chosen);
  }

  lemma ChildrenInTree(g: Graph, a: Aid, chosen: set<Aid>)
    requires RootedTree(g) && chosen <= Kids(g, a)
    ensures chosen <= g.kids.Keys
  {
    forall k | k in chosen ensures k in g.kids {
      assert TreeNode(g, a) && TreeNode(g, k);
    }
  }

  predicate CloseOk(g: Graph, w: World, a: Aid, step: LedgerStep, chosen: set<Aid>) {
    && chosen <= Kids(g, a)
    && ((InLeg(w, a, One) && step == EarlyCompletion && KindOf(g, a) == Plain)
        || (InLeg(w, a, Two) && step == Completion))
  }

  lemma CloseLedgerOf(w: World, a: Aid, step: LedgerStep, chosen: set<Aid>, b: Aid)
    requires a !in chosen
    ensures var w' := Close(w, a, step, chosen);
            && Count(w', b) == (if b == a then Count(w, a).Plus(step) else if b in chosen then ZERO else Count(w, b))
            && (b in w'.counts <==> b == a || b in chosen || b in w.counts)
            && (b in w'.hash.ledger <==> b == a || b in chosen || b in w.hash.ledger)
            && Stand(w'.hash, b)
               == (if b == a then Stand(w.hash, a) + Delta(step) else if b in chosen then SEED else Stand(w.hash, b))
  {
  }

  lemma CloseKeepsLedger(g: Graph, w: World, a: Aid, step: LedgerStep, chosen: set<Aid>, b: Aid)
    requires ActivityInv(g, w, a) && ActivityInv(g, w, b) && CloseOk(g, w, a, step, chosen)
    requires a in w.counts && a !in chosen && a != g.trigger
    ensures LedgerInv(g, Close(w, a, step, chosen), b)
  {
    CloseLedgerOf(w, a, step, chosen, b);
    if b == a {
      assert Encode(Count(w, a).Plus(step)) == Encode(Count(w, a)) + Delta(step);
    }
  }

  lemma CloseKeepsLeg(g: Graph, w: World, a: Aid, step: LedgerStep, chosen: set<Aid>, b: Aid)
    requires ActivityInv(g, w, b) && CloseOk(g, w, a, step, chosen) && a !in chosen
    requires b in chosen ==> b !in w.handed
    ensures LegInv(Close(w, a, step, chosen), b)
  {
  }

  lemma CloseKeepsHand(g: Graph, w: World, a: Aid, step: LedgerStep, chosen: set<Aid>, b: Aid)
    requires ActivityInv(g, w, a) && ActivityInv(g, w, b) && CloseOk(g, w, a, step, chosen)
    requires a !in chosen && g.trigger !in chosen && a != g.trigger && a in w.live && a in w.counts
    requires b in chosen ==> b !in w.handed && b in g.parent && g.parent[b] == a
    requires b in w.handed && b != g.trigger ==> b in g.parent && g.parent[b] !in chosen
    ensures HandInv(g, Close(w, a, step, chosen), b)
  {
    CloseLedgerOf(w, a, step, chosen, b);
  }

  lemma CloseKeepsActivity(g: Graph, w: World, a: Aid, step: LedgerStep, chosen: set<Aid>, b: Aid)
    requires RootedTree(g) && Inv(g, w) && CloseOk(g, w, a, step, chosen)
    ensures ActivityInv(g, Close(w, a, step, chosen), b)
  {
    InLegIsLive(g, w, a);
    assert ActivityInv(g, w, b);
    assert a !in chosen && g.trigger !in chosen by {
      assert TreeNode(g, a) && TreeNode(g, g.trigger);
    }
    if b in chosen {
      ChildIsFresh(g, w, a, b);
    } else if b in w.handed && b != g.trigger && g.parent[b] in chosen {
      ChildIsFresh(g, w, a, g.parent[b]);
    }
    CloseKeepsLedger(g, w, a, step, chosen, b);
    CloseKeepsLeg(g, w, a, step, chosen, b);
    CloseKeepsHand(g, w, a, step, chosen, b);
  }

  /** Closing moves the semaphore by exactly the change in the number of live activities. */
  lemma CloseKeepsJob(g: Graph, w: World, a: Aid, step: LedgerStep, chosen: set<Aid>)
    requires JobInv(g, w) && a in w.live && a in w.legs && chosen !! w.live && g.trigger !in chosen
    ensures JobInv(g, Close(w, a, step, chosen))
  {
    assert |w.live - {a} + chosen| == |w.live| - 1 + |chosen|;
    assert w.started;
  }

  lemma ChosenAreFresh(g: Graph, w: World, a: Aid, chosen: set<Aid>)
    requires RootedTree(g) && Inv(g, w) && a in w.live && chosen <= Kids(g, a)
    ensures chosen !! w.handed && chosen !! w.live && g.trigger !in chosen && a !in chosen
  {
    forall k | k in chosen ensures k !in w.handed && k !in w.live && k != g.trigger && k != a {
      ChildIsFresh(g, w, a, k);
      assert ActivityInv(g, w, k);
    }
  }

  lemma CloseConfined(g: Graph, w: World, a: Aid, step: LedgerStep, chosen: set<Aid>)
    requires Confined(g, w) && a in w.legs && chosen <= g.kids.Keys
    ensures Confined(g, Close(w, a, step, chosen))
  {
  }

  lemma CloseKeepsInv(g: Graph, w: World, a: Aid, step: LedgerStep, chosen: set<Aid>)
    requires RootedTree(g) && Inv(g, w) && CloseOk(g, w, a, step, chosen)
    ensures Inv(g, Close(w, a, step, chosen))
  {
    InLegIsLive(g, w, a);
    ChosenAreFresh(g, w, a, chosen);
    ChildrenInTree(g, a, chosen);
    CloseKeepsJob(g, w, a, step, chosen);
    CloseConfined(g, w, a, step, chosen);
    var w' := Close(w, a, step, chosen);
    forall b ensures ActivityInv(g, w', b) {
      CloseKeepsActivity(g, w, a, step, chosen, b);
    }
  }

  lemma StartLedgerOf(g: Graph, w: World, chosen: set<Aid>, b: Aid)
    requires g.trigger !in chosen
    ensures var w' := Start(g, w, chosen);
            && Count(w', b) == (if b == g.trigger then Counts(1, 1, 1, 1, 1) else if b in chosen then ZERO
                else Count(w, b))
            && (b in w'.counts <==> b == g.trigger || b in chosen || b in w.counts)
            && (b in w'.hash.ledger <==> b == g.trigger || b in chosen || b in w.hash.ledger)
            && Stand(w'.hash, b)
               == (if b == g.trigger then TRIGGER_SEED else if b in chosen then SEED else Stand(w.hash, b))
  {
  }

  lemma StartKeepsActivity(g: Graph, w: World, chosen: set<Aid>, b: Aid)
    requires RootedTree(g) && Inv(g, w) && Enabled(g, w, StartJob(chosen))
    ensures ActivityInv(g, Start(g, w, chosen), b)
  {
    assert TreeNode(g, g.trigger);
    StartLedgerOf(g, w, chosen, b);
  }

  lemma StartKeepsInv(g: Graph, w: World, chosen: set<Aid>)
    requires RootedTree(g) && Inv(g, w) && Enabled(g, w, StartJob(chosen))
    ensures Inv(g, Start(g, w, chosen))
  {
    var w' := Start(g, w, chosen);
    forall b ensures ActivityInv(g, w', b) {
      StartKeepsActivity(g, w, chosen, b);
    }
    assert Confined(g, w') by {
      ChildrenInTree(g, g.trigger, chosen);
    }
    StartKeepsJob(g, w, chosen);
  }

  lemma StartKeepsJob(g: Graph, w: World, chosen: set<Aid>)
    requires RootedTree(g) && JobInv(g, w) && Enabled(g, w, StartJob(chosen))
    ensures JobInv(g, Start(g, w, chosen))
  {
    assert g.trigger !in chosen by {
      assert TreeNode(g, g.trigger);
    }
    assert w.owed + w.ran + w.lost == 0;
  }

  lemma PublishKeepsActivity(g: Graph, w: World, a: Aid, b: Aid)
    requires Inv(g, w) && a in w.outbox
    ensures ActivityInv(g, After(g, w, Publish(a)), b)
    ensures w.outbox[a] <= w.handed - {g.trigger}
  {
    assert ActivityInv(g, w, a) && ActivityInv(g, w, b);
  }

  lemma PublishKeepsInv(g: Graph, w: World, a: Aid)
    requires Inv(g, w) && a in w.outbox
    ensures Inv(g, After(g, w, Publish(a)))
  {
    forall b ensures ActivityInv(g, After(g, w, Publish(a)), b) {
      PublishKeepsActivity(g, w, a, b);
    }
    PublishKeepsActivity(g, w, a, a);
  }

  /** Running the completion tasks, and engines dying between two steps. */
  lemma OtherStepsKeepInv(g: Graph, w: World, e: Event)
    requires Inv(g, w) && Enabled(g, w, e)
    requires e.RunCompletionTasks? || e.CrashLeg? || e.CrashOutbox? || e.CrashCompletion?
    ensures Inv(g, After(g, w, e))
  {
    forall b ensures ActivityInv(g, After(g, w, e), b) {
      assert ActivityInv(g, w, b);
    }
  }

  lemma EnterGateDecides(g: Graph, w: World, a: Aid)
    requires Inv(g, w) && a in w.published
    ensures Passes(w, a, Enter, One) <==> Count(w, a) == ZERO
  {
    assert ActivityInv(g, w, a);
    LegOneGate(Count(w, a));
    assert Encode(Count(w, a).Plus(Enter)) == Stand(w.hash, a) + Delta(Enter);
  }

  lemma ReenterGateDecides(g: Graph, w: World, a: Aid)
    requires Inv(g, w) && a in w.published && MayReenter(Count(w, a))
    ensures Passes(w, a, Reenter, Two) <==> LegTwoOpen(Count(w, a))
  {
    assert ActivityInv(g, w, a);
    LegTwoOpensExactly(Count(w, a));
    assert Encode(Count(w, a).Plus(Reenter)) == Stand(w.hash, a) + Delta(Reenter);
  }

  /** Every step, whoever takes it, keeps the invariant. */
  lemma StepKeepsInv(g: Graph, w: World, e: Event)
    requires RootedTree(g) && Inv(g, w) && Enabled(g, w, e)
    ensures Inv(g, After(g, w, e))
  {
    match e
    case CreateJob => CreateKeepsInv(g, w);
    case StartJob(chosen) => StartKeepsInv(g, w, chosen);
    case EnterLeg(a) =>
      EnterGateDecides(g, w, a);
      AttemptKeepsInv(g, w, a, Enter, One, Passes(w, a, Enter, One));
    case CommitPlain(a, chosen) => CloseKeepsInv(g, w, a, EarlyCompletion, chosen);
    case CommitWaiting(a) => HoldKeepsInv(g, w, a, AuthorizeReentry, {});
    case ReenterLeg(a) =>
      ReenterGateDecides(g, w, a);
      AttemptKeepsInv(g, w, a, Reenter, Two, Passes(w, a, Reenter, Two));
    case CommitPending(a, chosen) => HoldKeepsInv(g, w, a, Continuation, chosen);
    case CommitDone(a, chosen) => CloseKeepsInv(g, w, a, Completion, chosen);
    case Publish(a) => PublishKeepsInv(g, w, a);
    case RunCompletionTasks => OtherStepsKeepInv(g, w, e);
    case CrashLeg(a) => OtherStepsKeepInv(g, w, e);
    case CrashOutbox(a) => OtherStepsKeepInv(g, w, e);
    case CrashCompletion => OtherStepsKeepInv(g, w, e);
  }
}
