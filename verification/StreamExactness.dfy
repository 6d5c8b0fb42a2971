/** For which policies the callback runs of one request have a bound: exactly for the modest ones. */
module StreamExactness {
  import opened Options
  import opened Streams
  import opened StreamBounds

  /** Nothing but the one request, first of all, is put into the stream from outside. */
  ghost predicate OnlyRequest(t: Trace, input: Input) {
    forall i {:trigger t.actions[i]} :: 0 <= i < |t.actions| && t.actions[i].Request? ==>
        i == 0 && t.actions[i].input == Some(input)
  }

  /** `bound` limits the callback runs of every run with this one request. */
  ghost predicate RunsWithin(input: Input, reclaimCount: nat, slack: nat, bound: nat) {
    forall t {:trigger IsRun(t, reclaimCount, slack)} ::
      IsRun(t, reclaimCount, slack) && OnlyRequest(t, input) ==> t.streams[|t.actions|].runs <= bound
  }

  /* ---------- modest policies have a bound ---------- */

  lemma {:induction false} AllowancesOfOne(actions: seq<Action>, input: Input, perEntry: nat)
    requires forall i {:trigger actions[i]} :: 0 <= i < |actions| && actions[i].Request? ==>
        i == 0 && actions[i].input == Some(input)
    ensures Allowances(actions, perEntry) <= Allowance(Request(Some(input)), perEntry)
    ensures |actions| == 0 ==> Allowances(actions, perEntry) == 0
    decreases |actions|
  {
    if |actions| > 0 {
      var before := actions[..|actions| - 1];
      AllowancesOfOne(before, input, perEntry);
    }
  }

  lemma ModestIsBounded(input: Input, reclaimCount: nat, slack: nat)
    requires Modest(input)
    ensures RunsWithin(input, reclaimCount, slack, Allowance(Request(Some(input)), reclaimCount + 1 + slack))
  {
    forall t | IsRun(t, reclaimCount, slack) && OnlyRequest(t, input)
      ensures t.streams[|t.actions|].runs <= Allowance(Request(Some(input)), reclaimCount + 1 + slack)
    {
      forall a | a in t.actions && a.Request? && a.input.Some? ensures Modest(a.input.value) {
        var i :| 0 <= i < |t.actions| && t.actions[i] == a;
      }
      CallbackRunsAreBounded(t, reclaimCount, slack);
      AllowancesOfOne(t.actions, input, reclaimCount + 1 + slack);
    }
  }

  /* ---------- the others have none ---------- */

  /** Some run with this one request, already made, leads to the state. */
  ghost predicate Reachable(s: Stream, input: Input, reclaimCount: nat, slack: nat) {
    exists t {:trigger IsRun(t, reclaimCount, slack)} ::
      IsRun(t, reclaimCount, slack) && OnlyRequest(t, input) && |t.actions| > 0 && t.streams[|t.actions|] == s
  }

  lemma Requested(input: Input, reclaimCount: nat, slack: nat)
    ensures Reachable(After(EMPTY, Request(Some(input)), reclaimCount, slack), input, reclaimCount, slack)
  {
    var t := Trace([EMPTY], []);
    assert IsRun(t, reclaimCount, slack);
    RunExtends(t, Request(Some(input)), reclaimCount, slack);
    var t' := Trace([EMPTY] + [After(EMPTY, Request(Some(input)), reclaimCount, slack)], [] + [Request(Some(input))]);
    assert IsRun(t', reclaimCount, slack) && OnlyRequest(t', input);
  }

  lemma Go(s: Stream, a: Action, input: Input, reclaimCount: nat, slack: nat) returns (s': Stream)
    requires Reachable(s, input, reclaimCount, slack) && Enabled(s, a, slack) && !a.Request?
    ensures s' == After(s, a, reclaimCount, slack) && Reachable(s', input, reclaimCount, slack)
  {
    s' := After(s, a, reclaimCount, slack);
    hide After, Enabled;
    var t :| IsRun(t, reclaimCount, slack) && OnlyRequest(t, input) && |t.actions| > 0 && t.streams[|t.actions|] == s;
    RunExtends(t, a, reclaimCount, slack);
    var t' := Trace(t.streams + [s'], t.actions + [a]);
    assert IsRun(t', reclaimCount, slack);
    assert OnlyRequest(t', input) by {
      forall i | 0 <= i < |t'.actions| && t'.actions[i].Request? ensures i == 0 && t'.actions[i].input == Some(input) {
        assert i < |t.actions| && t'.actions[i] == t.actions[i];
      }
    }
  }

  const WORKER: Consumer := "c"

  /** Nobody holds an entry that does not exist yet. */
  ghost predicate Tidy(s: Stream) {
    forall k {:trigger k in s.holds} :: k in s.holds ==> k.1 < |s.entries|
  }

  /** The newest entry is unread and has these policies. */
  ghost predicate Unread(s: Stream, policies: map<int, int>) {
    && |s.entries| > 0 && Tidy(s)
    && var id := |s.entries| - 1;
    var e := s.entries[id];
    e.present && e.delivered == 0 && e.input.Some? && e.input.value.policies == policies && (WORKER, id) !in s.holds
  }

  /** One turn of an error whose policy is four or more: a run, and a retry. */
  lemma RetryTurn(s: Stream, code: int, input: Input, reclaimCount: nat, slack: nat) returns (s': Stream)
    requires Reachable(s, input, reclaimCount, slack) && Unread(s, input.policies)
    requires code in input.policies && input.policies[code] >= 4
    ensures Reachable(s', input, reclaimCount, slack) && Unread(s', input.policies) && s'.runs == s.runs + 1
  {
    var id, result := |s.entries| - 1, Some(Output(Error, Some(code), NOBODY, ""));
    var s1 := Go(s, Read(WORKER, id), input, reclaimCount, slack);
    var s2 := Go(s1, RunCallback(WORKER, id, result), input, reclaimCount, slack);
    s' := Go(s2, Publish(WORKER, id), input, reclaimCount, slack);
    var p := PublishResponse(s2.entries[id].input.value, result);
    assert s' == PublishFor(s2, WORKER, id, p);
  }

  lemma {:induction false} RetriesRunForEver(code: int, input: Input, reclaimCount: nat, slack: nat, n: nat)
    returns (s: Stream)
    requires code in input.policies && input.policies[code] >= 4
    ensures Reachable(s, input, reclaimCount, slack) && Unread(s, input.policies) && s.runs == n
  {
    if n == 0 {
      Requested(input, reclaimCount, slack);
      s := After(EMPTY, Request(Some(input)), reclaimCount, slack);
    } else {
      s := RetriesRunForEver(code, input, reclaimCount, slack, n - 1);
      s := RetryTurn(s, code, input, reclaimCount, slack);
    }
  }

  /** The request's own entry, delivered `delivered` times, with nobody at work on it. */
  ghost predicate Abandoned(s: Stream, input: Input, delivered: nat) {
    && |s.entries| > 0 && Tidy(s) && s.entries[0].input == Some(input) && s.entries[0].present
    && s.entries[0].delivered == delivered && (WORKER, 0) !in s.holds
  }

  /** Read or claimed, and dropped: one delivery more. */
  lemma {:induction false} Deliveries(input: Input, reclaimCount: nat, slack: nat, delivered: nat) returns (s: Stream)
    requires delivered > 0
    ensures Reachable(s, input, reclaimCount, slack) && Abandoned(s, input, delivered)
  {
    if delivered == 1 {
      Requested(input, reclaimCount, slack);
      s := After(EMPTY, Request(Some(input)), reclaimCount, slack);
      s := Go(s, Read(WORKER, 0), input, reclaimCount, slack);
      s := Go(s, Crash(WORKER, 0), input, reclaimCount, slack);
    } else {
      s := Deliveries(input, reclaimCount, slack, delivered - 1);
      s := ClaimAgain(s, input, reclaimCount, slack, delivered - 1);
      s := Go(s, Crash(WORKER, 0), input, reclaimCount, slack);
    }
  }

  /** The consumer holds the request's entry, to expire it. */
  ghost predicate Expiring(s: Stream, input: Input) {
    && |s.entries| > 0 && Tidy(s) && s.entries[0].input == Some(input) && s.entries[0].present
    && Holds(s, WORKER, 0, ToExpire)
  }

  lemma ClaimAgain(s: Stream, input: Input, reclaimCount: nat, slack: nat, delivered: nat) returns (s': Stream)
    requires Reachable(s, input, reclaimCount, slack) && Abandoned(s, input, delivered) && delivered > 0
    ensures Reachable(s', input, reclaimCount, slack) && s'.runs == s.runs && |s'.entries| == |s.entries| && Tidy(s')
    ensures s'.entries[0].input == Some(input) && s'.entries[0].present && s'.entries[0].delivered == delivered + 1
    ensures Holds(s', WORKER, 0, if delivered <= reclaimCount then ToRun else ToExpire)
  {
    var s1 := Go(s, Peek(WORKER, 0), input, reclaimCount, slack);
    s' := Go(s1, Claim(WORKER, 0), input, reclaimCount, slack);
  }

  /** One turn of an expiry that is retried: the retry is run, and the expired message claimed once more. */
  lemma ExpiryTurn(s: Stream, input: Input, reclaimCount: nat, slack: nat) returns (s': Stream)
    requires Reachable(s, input, reclaimCount, slack) && Expiring(s, input) && s.entries[0].delivered > reclaimCount
    requires !NoExpiryRetry(input)
    ensures Reachable(s', input, reclaimCount, slack) && Expiring(s', input) && s'.entries[0].delivered > reclaimCount
    ensures s'.runs == s.runs + 1
  {
    var id, delivered := |s.entries|, s.entries[0].delivered;
    var s1 := Go(s, Expire(WORKER, 0), input, reclaimCount, slack);
    assert s1 == PublishFor(s, WORKER, 0, PublishResponse(input, Some(Unacknowledged(input))));
    var s2 := Go(s1, Read(WORKER, id), input, reclaimCount, slack);
    var s3 := Go(s2, RunCallback(WORKER, id, None), input, reclaimCount, slack);
    var s4 := Go(s3, Crash(WORKER, 0), input, reclaimCount, slack);
    assert Abandoned(s4, input, delivered);
    s' := ClaimAgain(s4, input, reclaimCount, slack, delivered);
  }

  lemma {:induction false} ExpiriesRunForEver(input: Input, reclaimCount: nat, slack: nat, n: nat) returns (s: Stream)
    requires !NoExpiryRetry(input)
    ensures Reachable(s, input, reclaimCount, slack) && Expiring(s, input) && s.entries[0].delivered > reclaimCount
        && s.runs >= n
  {
    if n == 0 {
      s := Deliveries(input, reclaimCount, slack, reclaimCount + 1);
      s := ClaimAgain(s, input, reclaimCount, slack, reclaimCount + 1);
    } else {
      s := ExpiriesRunForEver(input, reclaimCount, slack, n - 1);
      s := ExpiryTurn(s, input, reclaimCount, slack);
    }
  }

  /** The callback runs that one request can cause have a bound if and only if no policy exceeds three and the policy
      for code 999, if there is one, does not allow a retry at the request's own try count. */
  lemma CallbackRunsAreBoundedExactly(input: Input, reclaimCount: nat, slack: nat)
    ensures (exists bound: nat :: RunsWithin(input, reclaimCount, slack, bound)) <==> Modest(input)
  {
    if Modest(input) {
      ModestIsBounded(input, reclaimCount, slack);
    } else {
      forall bound: nat ensures !RunsWithin(input, reclaimCount, slack, bound) {
        var s: Stream;
        if MaxRetries(input.policies) > 3 {
          var code := LargestPolicy(input.policies);
          s := RetriesRunForEver(code, input, reclaimCount, slack, bound + 1);
        } else {
          s := ExpiriesRunForEver(input, reclaimCount, slack, bound + 1);
        }
        var t :| IsRun(t, reclaimCount, slack) && OnlyRequest(t, input) && |t.actions| > 0
            && t.streams[|t.actions|] == s;
      }
    }
  }
}
