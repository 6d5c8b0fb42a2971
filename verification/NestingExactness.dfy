/** When jobs finish from the inside out: exactly when no message delivered again can spawn a second job or have its
    refusal told. */
module NestingExactness {
  import opened Options
  import opened Collator
  import opened JobRun
  import opened JobTheorems
  import opened Nesting

  /** Some history under the rules leads to the universe. */
  ghost predicate Reached(u: Universe, rules: Rules) {
    exists t {:trigger Follows(t, rules)} :: Follows(t, rules) && t.universes[|t.happenings|] == u
  }

  lemma Begin(rules: Rules)
    ensures Reached(NONE, rules)
  {
    var t := History([NONE], []);
    assert Follows(t, rules) && t.universes[|t.happenings|] == NONE;
  }

  lemma Extends(t: History, u: Universe, h: Happening, rules: Rules)
    requires Follows(t, rules) && May(t.universes[|t.happenings|], h) && Obeys(t.universes[|t.happenings|], h, rules)
    requires u == Then(t.universes[|t.happenings|], h)
    ensures Follows(History(t.universes + [u], t.happenings + [h]), rules)
  {
    hide Then, May, Obeys;
    var t' := History(t.universes + [u], t.happenings + [h]);
    forall i | 0 <= i < |t'.happenings| ensures HappensAt(t', i) && Obeys(t'.universes[i], t'.happenings[i], rules) {
      if i < |t.happenings| {
        assert HappensAt(t, i) && Obeys(t.universes[i], t.happenings[i], rules);
      }
    }
  }

  lemma Go(u: Universe, h: Happening, rules: Rules) returns (u': Universe)
    requires Reached(u, rules) && May(u, h) && Obeys(u, h, rules)
    ensures u' == Then(u, h) && Reached(u', rules)
  {
    u' := Then(u, h);
    hide Then, May, Obeys;
    var t :| Follows(t, rules) && t.universes[|t.happenings|] == u;
    Extends(t, u', h, rules);
    var t' := History(t.universes + [u'], t.happenings + [h]);
    assert Follows(t', rules) && t'.universes[|t'.happenings|] == u';
  }

  lemma ReachedJob(u: Universe, j: Jid, rules: Rules)
    requires Reached(u, rules) && j in u.jobs && j in u.graphs
    ensures Inv(u.graphs[j], u.jobs[j])
  {
    hide Inv;
    var t :| Follows(t, rules) && t.universes[|t.happenings|] == u;
    HistoryKeepsInv(t, |t.happenings|);
    assert JobOk(u, j);
  }

  /** A step of one job that begins no call and sends no result. */
  lemma GoLocal(u: Universe, j: Jid, e: Event, rules: Rules) returns (u': Universe)
    requires Reached(u, rules) && j in u.jobs && j in u.graphs && e != CreateJob && Enabled(u.graphs[j], u.jobs[j], e)
    requires !e.CommitWaiting? && (e.RunCompletionTasks? ==> j !in u.parent)
    requires e.ReenterLeg? ==> IsTold(u, (j, e.a))
    ensures u' == u.(jobs := u.jobs[j := After(u.graphs[j], u.jobs[j], e)]) && Reached(u', rules)
  {
    hide Enabled, After;
    u' := Go(u, Local(j, e), rules);
  }

  /* ---------- a job that waits for another ---------- */

  /** A job whose only activity `a` below the trigger awaits another job. */
  function Caller(a: Aid): Graph {
    var t := TriggerOf(a);
    Graph(t, map[t := {a}, a := {}], map[a := t], map[t := Plain, a := Await], map[t := 0, a := 1], 1)
  }

  function TriggerOf(a: Aid): Aid {
    if a == "t" then "u" else "t"
  }

  /** A job that is over at once. */
  const CALLED := Graph("t", map["t" := {}], map[], map["t" := Plain], map["t" := 0], 0)

  lemma GraphsAreTrees(a: Aid)
    ensures RootedTree(Caller(a)) && RootedTree(CALLED)
  {
    forall b ensures TreeNode(Caller(a), b) && TreeNode(CALLED, b) {
    }
  }

  /** The job waits in `a`, and nothing else goes on in it. */
  ghost predicate Waits(w: World, a: Aid) {
    && w.live == {a} && a in w.published && a !in w.legs && LegTwoOpen(Count(w, a)) && Count(w, a).reentries == 0
    && w.ran == 0 && w.hash.status == Some(1)
  }

  /** The job has handed on `a`, and nothing else has happened. */
  ghost predicate Arrived(w: World, a: Aid) {
    && w.live == {a} && w.published == {a} && w.legs == map[] && Count(w, a) == ZERO
    && w.ran == 0 && w.hash.status == Some(1)
  }

  lemma StartArrives(a: Aid)
    ensures var g, w := Caller(a), CREATED(Caller(a));
      && Enabled(g, w, StartJob({a}))
      && Enabled(g, After(g, w, StartJob({a})), Publish(g.trigger))
      && Arrived(After(g, After(g, w, StartJob({a})), Publish(g.trigger)), a)
  {
    hide Seed;
    var g, w := Caller(a), CREATED(Caller(a));
    assert After(g, w, StartJob({a})) == Start(g, w, {a});
  }

  /** An engine is in leg 1 of `a`. */
  ghost predicate Entered(w: World, a: Aid) {
    && w.live == {a} && w.published == {a} && InLeg(w, a, One) && Count(w, a) == ZERO.Plus(Enter)
    && w.ran == 0 && w.hash.status == Some(1)
  }

  lemma Enters(w: World, a: Aid)
    requires Inv(Caller(a), w) && Arrived(w, a)
    ensures Enabled(Caller(a), w, EnterLeg(a)) && Entered(After(Caller(a), w, EnterLeg(a)), a)
  {
    EnterGateDecides(Caller(a), w, a);
    hide VerifyInteger, Inv;
    assert After(Caller(a), w, EnterLeg(a)) == Attempt(w, a, Enter, One, true);
  }

  lemma CommitWaits(w: World, a: Aid)
    requires Entered(w, a)
    ensures Enabled(Caller(a), w, CommitWaiting(a)) && Waits(After(Caller(a), w, CommitWaiting(a)), a)
  {
    HoldLedgerOf(w, a, AuthorizeReentry, {}, a);
  }

  lemma EnterWaits(w: World, a: Aid)
    requires Inv(Caller(a), w) && Arrived(w, a)
    ensures var g := Caller(a);
      && Enabled(g, w, EnterLeg(a))
      && Enabled(g, After(g, w, EnterLeg(a)), CommitWaiting(a))
      && Waits(After(g, After(g, w, EnterLeg(a)), CommitWaiting(a)), a)
  {
    Enters(w, a);
    CommitWaits(After(Caller(a), w, EnterLeg(a)), a);
  }

  lemma ReentersAndCloses(w: World, a: Aid)
    requires Inv(Caller(a), w) && Waits(w, a)
    ensures var g := Caller(a);
      && Enabled(g, w, ReenterLeg(a))
      && Enabled(g, After(g, w, ReenterLeg(a)), CommitDone(a, {}))
      && var w' := After(g, After(g, w, ReenterLeg(a)), CommitDone(a, {}));
      w'.owed > 0 && w'.ran == 0
  {
    ReenterGateDecides(Caller(a), w, a);
    hide VerifyInteger, Seed, Recount, Inv;
    assert After(Caller(a), w, ReenterLeg(a)) == Attempt(w, a, Reenter, Two, true);
  }

  /** There is no other job. */
  ghost predicate Alone(u: Universe, j: Jid, a: Aid) {
    u.jobs.Keys == {j} && j in u.graphs && u.graphs[j] == Caller(a) && u.parent == map[] && u.errors == {}
  }

  lemma Arrives(j: Jid, a: Aid, rules: Rules) returns (u: Universe)
    ensures Reached(u, rules) && Alone(u, j, a) && Arrived(u.jobs[j], a)
  {
    GraphsAreTrees(a);
    Begin(rules);
    u := Go(NONE, NewJob(j, Caller(a)), rules);
    StartArrives(a);
    hide Enabled, After, Arrived, CREATED;
    u := GoLocal(u, j, StartJob({a}), rules);
    u := GoLocal(u, j, Publish(TriggerOf(a)), rules);
  }

  /** The waiting commit of an await activity, and its request. */
  lemma GoWaiting(u: Universe, j: Jid, a: Aid, rules: Rules) returns (u': Universe)
    requires Reached(u, rules) && j in u.jobs && j in u.graphs && KindOf(u.graphs[j], a) == Await
    requires Enabled(u.graphs[j], u.jobs[j], CommitWaiting(a))
    ensures u' == u.(jobs := u.jobs[j := After(u.graphs[j], u.jobs[j], CommitWaiting(a))],
                     calls := u.calls[(j, a) := Requested(0)])
    ensures Reached(u', rules)
  {
    hide Enabled, After, Reached, KindOf;
    u' := Go(u, Local(j, CommitWaiting(a)), rules);
    u' := Go(u', Ask((j, a)), rules);
  }

  lemma Asks(j: Jid, a: Aid, rules: Rules) returns (u: Universe)
    ensures Reached(u, rules) && Alone(u, j, a) && Waits(u.jobs[j], a) && IsCall(u, (j, a), Requested(0))
  {
    assert KindOf(Caller(a), a) == Await;
    hide Enabled, After, Arrived, Waits, Inv, Reached, Caller, KindOf;
    u := Arrives(j, a, rules);
    ReachedJob(u, j, rules);
    EnterWaits(u.jobs[j], a);
    u := GoLocal(u, j, EnterLeg(a), rules);
    u := GoWaiting(u, j, a, rules);
  }

  /** Told anything, the job closes `a` and is over. */
  lemma Finishes(u: Universe, j: Jid, a: Aid, rules: Rules) returns (u': Universe)
    requires Reached(u, rules) && j in u.jobs && j in u.graphs && u.graphs[j] == Caller(a) && j !in u.parent
    requires Waits(u.jobs[j], a) && IsTold(u, (j, a))
    ensures Reached(u', rules) && j in u'.jobs && u'.jobs[j].ran == 1 && u' == u.(jobs := u.jobs[j := u'.jobs[j]])
  {
    hide Enabled, After, Waits, Inv, IsTold, Reached, Caller;
    ReachedJob(u, j, rules);
    ReentersAndCloses(u.jobs[j], a);
    u' := GoLocal(u, j, ReenterLeg(a), rules);
    u' := GoLocal(u', j, CommitDone(a, {}), rules);
    u' := RunsTasks(u', j, rules);
  }

  lemma RunsTasks(u: Universe, j: Jid, rules: Rules) returns (u': Universe)
    requires Reached(u, rules) && j in u.jobs && j in u.graphs && j !in u.parent && u.jobs[j].owed > 0
        && u.jobs[j].ran == 0
    ensures Reached(u', rules) && j in u'.jobs && u'.jobs[j].ran == 1 && u' == u.(jobs := u.jobs[j := u'.jobs[j]])
  {
    u' := GoLocal(u, j, RunCompletionTasks, rules);
  }

  lemma ChildIsOverAtOnce()
    ensures var g, w := CALLED, CREATED(CALLED);
      && Enabled(g, w, StartJob({})) && After(g, w, StartJob({})).owed > 0
  {
  }

  /** A child runs to its end and sends its result. */
  lemma ChildFinishes(u: Universe, c: Jid, rules: Rules) returns (u': Universe)
    requires Reached(u, rules) && c in u.jobs && c in u.graphs && c in u.parent
    requires u.graphs[c] == CALLED && u.jobs[c] == CREATED(CALLED)
    ensures Reached(u', rules) && c in u'.jobs
    ensures u' == u.(jobs := u.jobs[c := u'.jobs[c]], sent := u.sent + multiset{c})
  {
    ChildIsOverAtOnce();
    hide Reached, CALLED, CREATED, After;
    u' := GoLocal(u, c, StartJob({}), rules);
    u' := Go(u', Local(c, RunCompletionTasks), rules);
  }

  lemma Spawns(u: Universe, site: Site, c: Jid, rules: Rules) returns (u': Universe)
    requires Reached(u, rules) && IsRequested(u, site) && c !in u.jobs && rules.ids(site, c)
    requires rules.once(site) ==> Tries(u, site) == 0
    ensures Reached(u', rules) && IsRequested(u', site)
    ensures u' == u.(jobs := u.jobs[c := CREATED(CALLED)], graphs := u.graphs[c := CALLED],
                     parent := u.parent[c := site], calls := u'.calls)
  {
    GraphsAreTrees("");
    hide Reached, RootedTree, CALLED, CREATED;
    u' := Go(u, Spawn(site, c, CALLED), rules);
  }

  /** A finished job whose child is not. */
  ghost predicate Overtakes(u: Universe, site: Site, c: Jid) {
    IsChild(u, c, site) && Unfinished(u, c) && site.0 in u.jobs && u.jobs[site.0].ran == 1
  }

  /** A request processed twice under two ids: the first child's result ends the job before the second is finished. */
  lemma SecondChildIsOvertaken(site: Site, c: Jid, d: Jid, rules: Rules) returns (u: Universe)
    requires !rules.once(site) && rules.ids(site, c) && rules.ids(site, d) && c != d && c != site.0 && d != site.0
    ensures Reached(u, rules) && Overtakes(u, site, d) && IsChild(u, c, site)
  {
    assert CREATED(CALLED).ran == 0;
    hide Reached, Waits, Caller, CALLED, CREATED;
    u := Asks(site.0, site.1, rules);
    u := Spawns(u, site, c, rules);
    u := Spawns(u, site, d, rules);
    u := ChildFinishes(u, c, rules);
    assert IsChild(u, c, site) && u.sent[c] > 0;
    u := Finishes(u, site.0, site.1, rules);
  }

  /** A request processed twice under one id: the refusal of the second ends the job before the child is finished. */
  lemma RefusalOvertakes(site: Site, c: Jid, rules: Rules) returns (u: Universe)
    requires !rules.once(site) && rules.ids(site, c) && rules.told(site) && c != site.0
    ensures Reached(u, rules) && Overtakes(u, site, c)
  {
    assert CREATED(CALLED).ran == 0;
    hide Reached, Waits, Caller, CALLED, CREATED;
    u := Asks(site.0, site.1, rules);
    u := Spawns(u, site, c, rules);
    u := Go(u, Refuse(site, c, true), rules);
    u := Finishes(u, site.0, site.1, rules);
  }

  /** A transition delivered twice: the refusal of the second entry ends the job before the child is finished. */
  lemma ComplaintOvertakes(site: Site, c: Jid, rules: Rules) returns (u: Universe)
    requires rules.again(site) && rules.ids(site, c) && c != site.0
    ensures Reached(u, rules) && Overtakes(u, site, c)
  {
    assert CREATED(CALLED).ran == 0;
    hide Reached, Waits, Caller, CALLED, CREATED;
    u := Asks(site.0, site.1, rules);
    u := Spawns(u, site, c, rules);
    u := Go(u, Complain(site), rules);
    u := Finishes(u, site.0, site.1, rules);
  }

  lemma OvertakingBreaksNesting(u: Universe, site: Site, c: Jid, rules: Rules)
    requires Reached(u, rules) && Overtakes(u, site, c)
    ensures !InsideOut(rules)
  {
    var t :| Follows(t, rules) && t.universes[|t.happenings|] == u;
    var chain := [c, site.0];
    assert IsLineage(u, chain) && Unfinished(u, chain[0]) && !Unfinished(u, chain[1]);
    assert !NestedAt(t.universes[|t.happenings|], chain);
  }

  lemma UnsafeRulesFail(site: Site, rules: Rules)
    requires !Safe(rules, site)
    ensures !InsideOut(rules)
  {
    var c :| rules.ids(site, c) && c != site.0;
    if rules.again(site) {
      var u := ComplaintOvertakes(site, c, rules);
      OvertakingBreaksNesting(u, site, c, rules);
    } else if rules.told(site) {
      var u := RefusalOvertakes(site, c, rules);
      OvertakingBreaksNesting(u, site, c, rules);
    } else {
      var c, d :| rules.ids(site, c) && rules.ids(site, d) && c != site.0 && d != site.0 && c != d;
      var u := SecondChildIsOvertaken(site, c, d, rules);
      OvertakingBreaksNesting(u, site, d, rules);
    }
  }

  /** Jobs finish from the inside out in every history if and only if, for each await activity that can have a child, no
      second leg-1 entry is told of, and its request is processed once only or fixes its child's id and has no refusal
      told. */
  lemma JobsFinishInsideOutExactly(rules: Rules)
    ensures InsideOut(rules) <==> forall site :: Safe(rules, site)
  {
    if forall site :: Safe(rules, site) {
      SafeRulesSuffice(rules);
    } else {
      var site :| !Safe(rules, site);
      UnsafeRulesFail(site, rules);
    }
  }
}
