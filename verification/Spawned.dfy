/** A spawned job's result, sent by an engine's object and told in the universe of jobs: the same event. */
module Spawned {
  import opened Options
  import opened Activities
  import JobRun
  import opened Nesting

  /** What a job has stored about who spawned it. */
  ghost predicate Stores(u: Universe, j: Jid, origin: Origin) {
    if j in u.parent then
      origin.pj == u.parent[j].0 && origin.pa == u.parent[j].1 && origin.pj != "" && origin.pa != ""
    else
      origin.pj == "" || origin.pa == ""
  }

  /** When an engine runs a job's completion tasks, a spawned job sends one result, to the very activity that spawned
      it, which from then on may be re-entered; any other job sends none. */
  method FinishJob(engine: Engine, origin: Origin, ghost u: Universe, ghost j: Jid) returns (ghost u': Universe)
    requires UniverseInv(u) && May(u, Local(j, JobRun.RunCompletionTasks)) && Stores(u, j, origin)
    modifies engine
    ensures u' == Then(u, Local(j, JobRun.RunCompletionTasks))
    ensures engine.completions == old(engine.completions) + 1
    ensures if j in u.parent then
        && |engine.results| == |old(engine.results)| + 1 && engine.results == old(engine.results) + [origin]
        && (origin.pj, origin.pa) == u.parent[j] && IsTold(u', (origin.pj, origin.pa))
        && u'.sent == u.sent + multiset{j}
      else
        engine.results == old(engine.results) && u'.sent == u.sent
  {
    u' := Then(u, Local(j, JobRun.RunCompletionTasks));
    engine.RunJobCompletionTasks(origin);
    if j in u.parent {
      assert IsChild(u', j, u.parent[j]) && u'.sent[j] > 0;
    }
  }
}
