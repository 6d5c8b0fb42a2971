/** How often a worker's callback can run: per entry, along a chain of retries, and in all. */
module StreamBounds {
  import opened Options
  import opened Sums
  import opened Streams

  /* ---------- retry policies ---------- */

  /** The largest retry count of any code, or -1. */
  ghost function MaxRetries(policies: map<int, int>): (m: int)
    ensures m >= -1
    ensures forall code :: code in policies ==> policies[code] <= m
  {
    MaxOver(policies, policies.Keys)
  }

  ghost function MaxOver(policies: map<int, int>, codes: set<int>): (m: int)
    requires codes <= policies.Keys
    ensures m >= -1
    ensures forall code :: code in codes ==> policies[code] <= m
    decreases |codes|
  {
    if !exists code :: code in codes then -1 else
      var code :| code in codes;
      var rest := MaxOver(policies, codes - {code});
      if policies[code] > rest then policies[code] else rest
  }

  /** Expired messages are not retried. The code compares the capped try count with the policy for its own code. */
  predicate NoExpiryRetry(input: Input) {
    SYSTEM_STATUS_CODE in input.policies ==> input.policies[SYSTEM_STATUS_CODE] < Min(input.tries, MAX_RETRIES)
  }

  /** The retry counts stay below the cap, and no policy has expired messages retried. */
  ghost predicate Modest(input: Input) {
    MaxRetries(input.policies) <= 3 && NoExpiryRetry(input)
  }

  /** How many more retries the policies can still grant. */
  ghost function Level(input: Input): nat {
    if input.tries > MaxRetries(input.policies) then 0 else MaxRetries(input.policies) + 1 - input.tries
  }

  /** A retry uses up one level. */
  lemma RetryLowersLevel(input: Input, result: Option<Output>)
    requires Modest(input) && PublishResponse(input, result).Retry?
    ensures var next := PublishResponse(input, result).input;
            Level(input) >= 1 && Level(next) == Level(input) - 1 && Modest(next) && next.tries == input.tries + 1
  {
  }

  lemma NoRetryOfUnacknowledged(input: Input)
    requires Modest(input)
    ensures PublishResponse(input, Some(Unacknowledged(input))).Respond?
  {
  }

  /** Each message is the retry that the result of the one before it calls for. */
  ghost predicate IsRetryChain(chain: seq<Input>, results: seq<Option<Output>>) {
    && |chain| == |results| + 1
    && forall i {:trigger results[i]} :: 0 <= i < |results| ==>
        PublishResponse(chain[i], results[i]) == Retry(chain[i + 1])
  }

  /** A first request is retried at most one time more than its policies' largest count. */
  lemma {:induction false} RetryChainEnds(chain: seq<Input>, results: seq<Option<Output>>)
    requires IsRetryChain(chain, results) && MaxRetries(chain[0].policies) <= 3
    ensures |results| <= Level(chain[0])
    decreases |results|
  {
    if results != [] {
      assert PublishResponse(chain[0], results[0]) == Retry(chain[1]);
      assert IsRetryChain(chain[1..], results[1..]) by {
        forall i | 0 <= i < |results| - 1
          ensures PublishResponse(chain[1..][i], results[1..][i]) == Retry(chain[1..][i + 1])
        {
          assert results[1..][i] == results[i + 1];
        }
      }
      RetryChainEnds(chain[1..], results[1..]);
    }
  }

  /** `bound` limits the retries of every first request with these policies. */
  ghost predicate RetriesWithin(policies: map<int, int>, bound: nat) {
    forall chain: seq<Input>, results: seq<Option<Output>> {:trigger IsRetryChain(chain, results)} ::
      IsRetryChain(chain, results) && chain[0].tries == 0 && chain[0].policies == policies ==> |results| <= bound
  }

  /** Retries come to an end exactly when no policy reaches the cap of four, which the capped try count
      never passes. */
  lemma RetriesEndExactly(policies: map<int, int>)
    ensures (exists bound: nat :: RetriesWithin(policies, bound)) <==> MaxRetries(policies) <= 3
  {
    if MaxRetries(policies) <= 3 {
      forall chain: seq<Input>, results: seq<Option<Output>> | IsRetryChain(chain, results) && chain[0].tries == 0
          && chain[0].policies == policies
        ensures |results| <= MaxRetries(policies) + 1
      {
        RetryChainEnds(chain, results);
      }
      assert RetriesWithin(policies, MaxRetries(policies) + 1);
    } else {
      var code := LargestPolicy(policies);
      forall bound: nat ensures !RetriesWithin(policies, bound) {
        EndlessRetries(policies, code, bound + 1);
      }
    }
  }

  lemma LargestPolicy(policies: map<int, int>) returns (code: int)
    requires MaxRetries(policies) > -1
    ensures code in policies && policies[code] == MaxRetries(policies)
  {
    code := LargestAmong(policies, policies.Keys);
  }

  lemma {:induction false} LargestAmong(policies: map<int, int>, codes: set<int>) returns (code: int)
    requires codes <= policies.Keys && MaxOver(policies, codes) > -1
    ensures code in codes && policies[code] == MaxOver(policies, codes)
    decreases |codes|
  {
    var first :| first in codes && MaxOver(policies, codes) ==
      (var rest := MaxOver(policies, codes - {first}); if policies[first] > rest then policies[first] else rest);
    if policies[first] == MaxOver(policies, codes) {
      code := first;
    } else {
      code := LargestAmong(policies, codes - {first});
    }
  }

  const NOBODY := Metadata("", "", "", "")

  /** A policy of four or more goes on for ever if its error keeps coming. */
  lemma EndlessRetries(policies: map<int, int>, code: int, n: nat)
    requires code in policies && policies[code] >= 4
    ensures exists chain: seq<Input>, results: seq<Option<Output>> ::
              IsRetryChain(chain, results) && chain[0].tries == 0 && chain[0].policies == policies && |results| == n
  {
    var chain := seq(n + 1, (i: nat) => Input(NOBODY, "", i, policies));
    var results := seq(n, (i: nat) => Some(Output(Error, Some(code), NOBODY, "")));
    assert IsRetryChain(chain, results);
  }

  /* ---------- runs of one entry ---------- */

  function Running(s: Stream, id: Id): Key -> nat {
    (k: Key) => if k in s.holds && k.1 == id && s.holds[k] == ToRun then 1 else 0
  }

  /** A callback run needs a grant, and grants stop once the delivery count passes the limit; only claims
      decided on an outdated count escape it. */
  ghost predicate GrantInv(s: Stream, reclaimCount: nat, slack: nat, id: Id)
    requires id < |s.entries|
  {
    var e := s.entries[id];
    && |e.results| + Sum(s.holds.Keys, Running(s, id)) <= e.granted
    && e.granted <= Min(e.delivered, reclaimCount + 1) + e.stale
    && e.stale <= slack
  }

  ghost predicate GrantsInv(s: Stream, reclaimCount: nat, slack: nat) {
    && (forall k :: k in s.holds ==> k.1 < |s.entries|)
    && (forall id {:trigger GrantInv(s, reclaimCount, slack, id)} :: 0 <= id < |s.entries| ==>
        GrantInv(s, reclaimCount, slack, id))
  }

  /** The key a step touches. */
  function KeyOf(a: Action): Key
    requires !a.Request?
  {
    (a.c, a.id)
  }

  /** A publication settles what its consumer holds, and leaves the numbers of every entry alone. */
  lemma PublicationNumbers(s: Stream, c: Consumer, id: Id, p: Publication, other: Id)
    requires id < |s.entries| && other < |s.entries|
    ensures var s' := PublishFor(s, c, id, p);
            var e, e' := s.entries[other], s'.entries[other];
            && e'.results == e.results && e'.granted == e.granted && e'.delivered == e.delivered && e'.stale == e.stale
            && (s'.holds == s.holds[(c, id) := ToAck] || s'.holds == s.holds - {(c, id)})
  {
  }

  lemma HoldsKeys(s: Stream, a: Action, reclaimCount: nat, slack: nat)
    requires Enabled(s, a, slack) && !a.Request?
    ensures var s' := After(s, a, reclaimCount, slack);
            && (s'.holds.Keys == s.holds.Keys + {KeyOf(a)} || s'.holds.Keys == s.holds.Keys - {KeyOf(a)}
                || s'.holds == s.holds)
            && forall k :: k != KeyOf(a) ==>
                (k in s.holds <==> k in s'.holds) && (k in s.holds ==> s'.holds[k] == s.holds[k])
  {
    hide PublishResponse;
    if (a.Publish? || a.Expire?) && s.entries[a.id].input.Some? {
      PublicationNumbers(s, a.c, a.id, Published(s, a).value, a.id);
      assert After(s, a, reclaimCount, slack) == PublishFor(s, a.c, a.id, Published(s, a).value);
      hide PublishFor, After;
    } else {
      hide PublishFor;
    }
  }

  lemma StepKeepsGrant(s: Stream, a: Action, reclaimCount: nat, slack: nat, id: Id)
    requires GrantsInv(s, reclaimCount, slack) && Enabled(s, a, slack) && id < |s.entries|
    ensures GrantInv(After(s, a, reclaimCount, slack), reclaimCount, slack, id)
  {
    var s' := After(s, a, reclaimCount, slack);
    assert GrantInv(s, reclaimCount, slack, id);
    if a.Request? {
      SumAgree(s.holds.Keys, Running(s, id), Running(s', id));
    } else {
      HoldsKeys(s, a, reclaimCount, slack);
      SumPut(s.holds.Keys, KeyOf(a), Running(s, id), Running(s', id));
      GrantArithmetic(s, a, reclaimCount, slack, id);
    }
  }

  /** What a step does to an entry's numbers, against what it does to the key it touches. */
  lemma GrantArithmetic(s: Stream, a: Action, reclaimCount: nat, slack: nat, id: Id)
    requires Enabled(s, a, slack) && !a.Request? && id < |s.entries|
    ensures var s' := After(s, a, reclaimCount, slack);
            var e, e' := s.entries[id], s'.entries[id];
            var before, after := Running(s, id)(KeyOf(a)), Running(s', id)(KeyOf(a));
            && |e'.results| - |e.results| + after - before <= e'.granted - e.granted
            && (e'.granted == e.granted || (e'.granted == e.granted + 1 && e'.delivered == e.delivered + 1
                  && (e'.stale == e.stale + 1 || e.delivered <= reclaimCount)))
            && e.stale <= e'.stale && e.delivered <= e'.delivered
            && (e'.stale > e.stale ==> e'.stale == e.stale + 1 <= slack)
  {
    hide PublishResponse;
    if (a.Publish? || a.Expire?) && s.entries[a.id].input.Some? {
      PublicationNumbers(s, a.c, a.id, Published(s, a).value, id);
      assert After(s, a, reclaimCount, slack) == PublishFor(s, a.c, a.id, Published(s, a).value);
      hide PublishFor, After;
    } else {
      hide PublishFor;
    }
  }

  lemma StepKeepsGrants(s: Stream, a: Action, reclaimCount: nat, slack: nat)
    requires GrantsInv(s, reclaimCount, slack) && Enabled(s, a, slack)
    ensures GrantsInv(After(s, a, reclaimCount, slack), reclaimCount, slack)
  {
    var s' := After(s, a, reclaimCount, slack);
    StepGrows(s, a, reclaimCount, slack);
    forall id | 0 <= id < |s'.entries| ensures GrantInv(s', reclaimCount, slack, id) {
      if id < |s.entries| {
        StepKeepsGrant(s, a, reclaimCount, slack, id);
      } else {
        NobodyHolds(s', id);
      }
    }
  }

  /** Nobody can hold an entry that a step has just added. */
  lemma NobodyHolds(s: Stream, id: Id)
    requires forall k :: k in s.holds && k.1 == id ==> s.holds[k] != ToRun
    ensures Sum(s.holds.Keys, Running(s, id)) == 0
  {
    SumAgree(s.holds.Keys, Running(s, id), (k: Key) => 0);
    SumOfZeros(s.holds.Keys);
  }

  lemma {:induction false} SumOfZeros(keys: set<Key>)
    ensures Sum(keys, (k: Key) => 0) == 0
    decreases |keys|
  {
    if keys != {} {
      var k :| k in keys;
      SumTake(keys, k, (k: Key) => 0);
      SumOfZeros(keys - {k});
      SumAgree(keys - {k}, (k: Key) => 0, (k: Key) => 0);
    }
  }

  lemma {:induction false} RunKeepsGrants(t: Trace, reclaimCount: nat, slack: nat, n: nat)
    requires IsRun(t, reclaimCount, slack) && n < |t.streams|
    ensures GrantsInv(t.streams[n], reclaimCount, slack)
  {
    if n > 0 {
      RunKeepsGrants(t, reclaimCount, slack, n - 1);
      assert StepAt(t, reclaimCount, slack, n - 1);
      StepKeepsGrants(t.streams[n - 1], t.actions[n - 1], reclaimCount, slack);
    }
  }

  /** However consumers crash and reclaim, one entry's callback runs at most reclaimCount + 1 times, plus
      one for each claim that was decided on an outdated delivery count. */
  lemma EntryRunsAreBounded(t: Trace, reclaimCount: nat, slack: nat, n: nat, id: Id)
    requires IsRun(t, reclaimCount, slack) && n < |t.streams| && id < |t.streams[n].entries|
    ensures |t.streams[n].entries[id].results| <= reclaimCount + 1 + t.streams[n].entries[id].stale
    ensures t.streams[n].entries[id].stale <= slack
  {
    RunKeepsGrants(t, reclaimCount, slack, n);
    assert GrantInv(t.streams[n], reclaimCount, slack, id);
  }

  /* ---------- all runs caused by a request ---------- */

  /** One run, and the retry it may cause. */
  ghost function RunCost(perEntry: nat, level: nat): nat
    decreases level
  {
    1 + RetryCost(perEntry, level)
  }

  ghost function RetryCost(perEntry: nat, level: nat): nat
    decreases level, 0
  {
    if level == 0 then 0 else perEntry * RunCost(perEntry, level - 1)
  }

  ghost function LevelOf(e: Entry): nat {
    if e.input.Some? then Level(e.input.value) else 0
  }

  /** What an entry can still cause by being delivered again. */
  ghost function EntryWeight(e: Entry, perEntry: nat): nat {
    if e.granted >= perEntry then 0 else (perEntry - e.granted) * RunCost(perEntry, LevelOf(e))
  }

  ghost function EntriesWeight(entries: seq<Entry>, perEntry: nat): nat {
    if entries == [] then 0 else
      EntriesWeight(entries[..|entries| - 1], perEntry) + EntryWeight(entries[|entries| - 1], perEntry)
  }

  /** What a consumer can still cause with an entry it holds. */
  ghost function HoldWeight(s: Stream, perEntry: nat): Key -> nat {
    (k: Key) =>
      if k in s.holds && k.1 < |s.entries| then
        match s.holds[k]
        case ToRun => RunCost(perEntry, LevelOf(s.entries[k.1]))
        case ToPublish(_) => RetryCost(perEntry, LevelOf(s.entries[k.1]))
        case _ => 0
      else 0
  }

  ghost function Potential(s: Stream, perEntry: nat): nat {
    EntriesWeight(s.entries, perEntry) + Sum(s.holds.Keys, HoldWeight(s, perEntry))
  }

  ghost function Allowance(a: Action, perEntry: nat): nat {
    if a.Request? then EntryWeight(NewEntry(a.input, None), perEntry) else 0
  }

  ghost predicate AllModest(s: Stream) {
    forall id {:trigger s.entries[id]} :: 0 <= id < |s.entries| && s.entries[id].input.Some? ==>
        Modest(s.entries[id].input.value)
  }

  lemma {:induction false} EntriesUpdate(entries: seq<Entry>, id: nat, e: Entry, perEntry: nat)
    requires id < |entries|
    ensures EntriesWeight(entries[id := e], perEntry) + EntryWeight(entries[id], perEntry)
         == EntriesWeight(entries, perEntry) + EntryWeight(e, perEntry)
    decreases |entries|
  {
    var n := |entries| - 1;
    var updated := entries[id := e];
    if id == n {
      assert updated[..n] == entries[..n];
    } else {
      assert updated[..n] == entries[..n][id := e] && updated[n] == entries[n];
      EntriesUpdate(entries[..n], id, e, perEntry);
    }
  }

  lemma EntriesAppend(entries: seq<Entry>, e: Entry, perEntry: nat)
    ensures EntriesWeight(entries + [e], perEntry) == EntriesWeight(entries, perEntry) + EntryWeight(e, perEntry)
  {
    assert (entries + [e])[..|entries|] == entries;
  }

  lemma WeightOfGrant(e: Entry, e': Entry, perEntry: nat)
    requires e'.input == e.input && e'.granted == e.granted + 1 <= perEntry
    ensures EntryWeight(e', perEntry) + RunCost(perEntry, LevelOf(e)) == EntryWeight(e, perEntry)
  {
    var left, cost := perEntry - e.granted - 1, RunCost(perEntry, LevelOf(e));
    assert (left + 1) * cost == left * cost + cost;
  }

  /** A retry's fresh entry weighs what the run that caused it had set aside. */
  lemma WeightOfRetry(input: Input, result: Option<Output>, perEntry: nat)
    requires Modest(input) && PublishResponse(input, result).Retry?
    ensures forall source :: EntryWeight(NewEntry(Some(PublishResponse(input, result).input), source),
        perEntry) == RetryCost(perEntry, Level(input))
  {
    RetryLowersLevel(input, result);
  }

  /** What the entry and the key touched by a step weigh does not grow, and a callback run is paid for. */
  ghost predicate Pays(s: Stream, k: Key, s': Stream, perEntry: nat)
    requires k.1 < |s.entries| == |s'.entries|
  {
    EntryWeight(s'.entries[k.1], perEntry) + HoldWeight(s', perEntry)(k) + (s'.runs - s.runs)
    <= EntryWeight(s.entries[k.1], perEntry) + HoldWeight(s, perEntry)(k)
  }

  lemma DeliveryPays(s: Stream, a: Action, reclaimCount: nat, slack: nat)
    requires GrantsInv(s, reclaimCount, slack) && Enabled(s, a, slack) && (a.Read? || a.Claim?)
    ensures Pays(s, KeyOf(a), After(s, a, reclaimCount, slack), reclaimCount + 1 + slack)
  {
    var perEntry := reclaimCount + 1 + slack;
    var s' := After(s, a, reclaimCount, slack);
    var e, e' := s.entries[a.id], s'.entries[a.id];
    StepKeepsGrant(s, a, reclaimCount, slack, a.id);
    assert e'.granted <= perEntry;
    if e'.granted == e.granted + 1 {
      WeightOfGrant(e, e', perEntry);
    }
  }

  lemma RunPays(s: Stream, a: Action, reclaimCount: nat, slack: nat)
    requires Enabled(s, a, slack) && a.RunCallback?
    ensures Pays(s, KeyOf(a), After(s, a, reclaimCount, slack), reclaimCount + 1 + slack)
  {
  }

  lemma RestPays(s: Stream, a: Action, reclaimCount: nat, slack: nat)
    requires Enabled(s, a, slack)
    requires a.Peek? || a.Skip? || a.Ack? || a.Crash? || a.Expire?
    requires a.id < |s.entries| && (a.Expire? ==> s.entries[a.id].input.None?)
    ensures Pays(s, KeyOf(a), After(s, a, reclaimCount, slack), reclaimCount + 1 + slack)
  {
  }

  lemma OtherHoldsWeighTheSame(s: Stream, k: Key, s': Stream, perEntry: nat, k': Key)
    requires k.1 < |s.entries| == |s'.entries|
    requires s'.entries == s.entries[k.1 := s'.entries[k.1]] && s'.entries[k.1].input == s.entries[k.1].input
    requires k' in s.holds && k' in s'.holds && s'.holds[k'] == s.holds[k']
    ensures HoldWeight(s', perEntry)(k') == HoldWeight(s, perEntry)(k')
  {
  }

  /** What consumers hold changes only by the key a step touches. */
  lemma HoldsMove(s: Stream, k: Key, s': Stream, perEntry: nat)
    requires k.1 < |s.entries| == |s'.entries|
    requires s'.entries == s.entries[k.1 := s'.entries[k.1]] && s'.entries[k.1].input == s.entries[k.1].input
    requires s'.holds.Keys == s.holds.Keys + {k} || s'.holds.Keys == s.holds.Keys - {k} || s'.holds.Keys == s.holds.Keys
    requires forall k' :: k' in s.holds && k' != k ==> k' in s'.holds && s'.holds[k'] == s.holds[k']
    ensures Sum(s'.holds.Keys, HoldWeight(s', perEntry)) + HoldWeight(s, perEntry)(k)
         == Sum(s.holds.Keys, HoldWeight(s, perEntry)) + HoldWeight(s', perEntry)(k)
  {
    var f, g := HoldWeight(s, perEntry), HoldWeight(s', perEntry);
    forall k' | k' in s.holds.Keys && k' != k ensures f(k') == g(k') {
      OtherHoldsWeighTheSame(s, k, s', perEntry, k');
    }
    SumMove(s.holds.Keys, k, s'.holds.Keys, f, g);
  }

  /** A step on one key and one entry that pays for its runs never raises what has run plus what still can. */
  lemma LocalStep(s: Stream, k: Key, s': Stream, perEntry: nat)
    requires k.1 < |s.entries| == |s'.entries|
    requires s'.entries == s.entries[k.1 := s'.entries[k.1]] && s'.entries[k.1].input == s.entries[k.1].input
    requires s'.holds.Keys == s.holds.Keys + {k} || s'.holds.Keys == s.holds.Keys - {k} || s'.holds.Keys == s.holds.Keys
    requires forall k' :: k' in s.holds && k' != k ==> k' in s'.holds && s'.holds[k'] == s.holds[k']
    requires Pays(s, k, s', perEntry)
    ensures s'.runs + Potential(s', perEntry) <= s.runs + Potential(s, perEntry)
  {
    EntriesUpdate(s.entries, k.1, s'.entries[k.1], perEntry);
    HoldsMove(s, k, s', perEntry);
  }

  /** A new entry adds exactly its own weight. */
  lemma NewEntryWeighs(s: Stream, e: Entry, perEntry: nat)
    requires forall k :: k in s.holds ==> k.1 < |s.entries|
    ensures Potential(s.(entries := s.entries + [e]), perEntry) == Potential(s, perEntry) + EntryWeight(e, perEntry)
  {
    EntriesAppend(s.entries, e, perEntry);
    SumAgree(s.holds.Keys, HoldWeight(s, perEntry), HoldWeight(s.(entries := s.entries + [e]), perEntry));
  }

  /** Publishing settles what a consumer had set aside: for the retry's new entry, or for nothing. */
  lemma PublicationPays(s: Stream, k: Key, result: Option<Output>, perEntry: nat)
    requires (forall k' :: k' in s.holds ==> k'.1 < |s.entries|) && k in s.holds
    requires s.entries[k.1].input.Some? && Modest(s.entries[k.1].input.value)
    requires s.holds[k] == ToPublish(result)
        || (s.holds[k].ToExpire? && result == Some(Unacknowledged(s.entries[k.1].input.value)))
    ensures var s' := PublishFor(s, k.0, k.1, PublishResponse(s.entries[k.1].input.value, result));
            s'.runs + Potential(s', perEntry) <= s.runs + Potential(s, perEntry)
  {
    hide PublishResponse, Modest, Potential, RunCost, RetryCost;
    var input := s.entries[k.1].input.value;
    var p := PublishResponse(input, result);
    var s' := PublishFor(s, k.0, k.1, p);
    assert k == (k.0, k.1);
    if p.Retry? {
      if s.holds[k].ToExpire? {
        NoRetryOfUnacknowledged(input);
      }
      var middle := s'.(entries := s'.entries[..|s.entries|]);
      WeightOfRetry(input, result, perEntry);
      RetryPays(s, k, middle, perEntry, middle.entries[k.1]);
      NewEntryWeighs(middle, NewEntry(Some(p.input), Some((k.1, |s.entries[k.1].answers|))), perEntry);
      assert s' == middle.(entries := middle.entries
          + [NewEntry(Some(p.input), Some((k.1, |s.entries[k.1].answers|)))]);
    } else {
      LocalStep(s, k, s', perEntry);
    }
  }

  /** Before the retry is added, its weight has been given up. */
  lemma RetryPays(s: Stream, k: Key, s': Stream, perEntry: nat, e': Entry)
    requires k.1 < |s.entries| && k in s.holds && s.holds[k].ToPublish?
    requires e'.input == s.entries[k.1].input && e'.granted == s.entries[k.1].granted
    requires s'.entries == s.entries[k.1 := e']
    requires s'.holds == s.holds[k := ToAck] && s'.runs == s.runs
    ensures s'.runs + Potential(s', perEntry) + RetryCost(perEntry, LevelOf(s.entries[k.1])) <= s.runs + Potential(s,
        perEntry)
  {
    EntriesUpdate(s.entries, k.1, e', perEntry);
    assert s'.holds.Keys == s.holds.Keys;
    HoldsMove(s, k, s', perEntry);
  }

  lemma LocalPotential(s: Stream, a: Action, reclaimCount: nat, slack: nat)
    requires GrantsInv(s, reclaimCount, slack) && Enabled(s, a, slack)
    requires a.Read? || a.Claim? || a.RunCallback?
    ensures var s', perEntry := After(s, a, reclaimCount, slack), reclaimCount + 1 + slack;
            s'.runs + Potential(s', perEntry) <= s.runs + Potential(s, perEntry)
  {
    if a.RunCallback? {
      RunPays(s, a, reclaimCount, slack);
    } else {
      DeliveryPays(s, a, reclaimCount, slack);
    }
    HoldsKeys(s, a, reclaimCount, slack);
    LocalStep(s, KeyOf(a), After(s, a, reclaimCount, slack), reclaimCount + 1 + slack);
  }

  lemma QuietPotential(s: Stream, a: Action, reclaimCount: nat, slack: nat)
    requires GrantsInv(s, reclaimCount, slack) && Enabled(s, a, slack)
    requires a.Peek? || a.Skip? || a.Ack? || a.Crash? || (a.Expire? && s.entries[a.id].input.None?)
    ensures var s', perEntry := After(s, a, reclaimCount, slack), reclaimCount + 1 + slack;
            s'.runs + Potential(s', perEntry) <= s.runs + Potential(s, perEntry)
  {
    assert KeyOf(a) in s.holds || a.Peek?;
    RestPays(s, a, reclaimCount, slack);
    HoldsKeys(s, a, reclaimCount, slack);
    LocalStep(s, KeyOf(a), After(s, a, reclaimCount, slack), reclaimCount + 1 + slack);
  }

  /** What a publishing step publishes. */
  lemma PublishingStep(s: Stream, a: Action, reclaimCount: nat, slack: nat) returns (result: Option<Output>)
    requires AllModest(s) && Enabled(s, a, slack) && (a.Publish? || a.Expire?) && s.entries[a.id].input.Some?
    ensures var k, input := KeyOf(a), s.entries[a.id].input.value;
      && k.1 == a.id && k in s.holds && Modest(input)
      && (s.holds[k] == ToPublish(result) || (s.holds[k].ToExpire? && result == Some(Unacknowledged(input))))
      && After(s, a, reclaimCount, slack) == PublishFor(s, k.0, k.1, PublishResponse(input, result))
  {
    hide PublishFor, PublishResponse, Modest, Unacknowledged;
    result := if a.Publish? then s.holds[KeyOf(a)].result else Some(Unacknowledged(s.entries[a.id].input.value));
  }

  lemma PublishPotential(s: Stream, a: Action, reclaimCount: nat, slack: nat)
    requires GrantsInv(s, reclaimCount, slack) && AllModest(s) && Enabled(s, a, slack)
    requires (a.Publish? || a.Expire?) && s.entries[a.id].input.Some?
    ensures var s', perEntry := After(s, a, reclaimCount, slack), reclaimCount + 1 + slack;
            s'.runs + Potential(s', perEntry) <= s.runs + Potential(s, perEntry)
  {
    hide After, PublishFor, PublishResponse, Unacknowledged, Potential, Modest, AllModest, GrantInv, Enabled, KeyOf;
    var result := PublishingStep(s, a, reclaimCount, slack);
    PublicationPays(s, KeyOf(a), result, reclaimCount + 1 + slack);
  }

  /** No step raises what has run plus what still can, but for the allowance of a new request. */
  lemma PotentialStep(s: Stream, a: Action, reclaimCount: nat, slack: nat)
    requires GrantsInv(s, reclaimCount, slack) && AllModest(s) && Enabled(s, a, slack)
    ensures var s', perEntry := After(s, a, reclaimCount, slack), reclaimCount + 1 + slack;
            s'.runs + Potential(s', perEntry) <= s.runs + Potential(s, perEntry) + Allowance(a, perEntry)
  {
    if a.Request? {
      NewEntryWeighs(s, NewEntry(a.input, None), reclaimCount + 1 + slack);
    } else if a.Read? || a.Claim? || a.RunCallback? {
      LocalPotential(s, a, reclaimCount, slack);
    } else if a.Publish? || (a.Expire? && s.entries[a.id].input.Some?) {
      PublishPotential(s, a, reclaimCount, slack);
    } else {
      QuietPotential(s, a, reclaimCount, slack);
    }
  }

  lemma StepKeepsModest(s: Stream, a: Action, reclaimCount: nat, slack: nat)
    requires AllModest(s) && Enabled(s, a, slack)
    requires a.Request? && a.input.Some? ==> Modest(a.input.value)
    ensures AllModest(After(s, a, reclaimCount, slack))
  {
  }

  /** What the requests among the first `n` actions may cost. */
  ghost function Allowances(actions: seq<Action>, perEntry: nat): nat {
    if actions == [] then 0 else
      Allowances(actions[..|actions| - 1], perEntry) + Allowance(actions[|actions| - 1], perEntry)
  }

  lemma {:induction false} RunIsPaid(t: Trace, reclaimCount: nat, slack: nat, n: nat)
    requires IsRun(t, reclaimCount, slack) && n < |t.streams|
    requires forall a {:trigger a in t.actions} :: a in t.actions && a.Request? && a.input.Some? ==>
        Modest(a.input.value)
    ensures AllModest(t.streams[n])
    ensures var perEntry := reclaimCount + 1 + slack;
            t.streams[n].runs + Potential(t.streams[n], perEntry) <= Allowances(t.actions[..n], perEntry)
  {
    var perEntry := reclaimCount + 1 + slack;
    if n > 0 {
      RunIsPaid(t, reclaimCount, slack, n - 1);
      RunKeepsGrants(t, reclaimCount, slack, n - 1);
      assert StepAt(t, reclaimCount, slack, n - 1);
      assert t.actions[n - 1] in t.actions;
      PotentialStep(t.streams[n - 1], t.actions[n - 1], reclaimCount, slack);
      StepKeepsModest(t.streams[n - 1], t.actions[n - 1], reclaimCount, slack);
      assert t.actions[..n][..n - 1] == t.actions[..n - 1];
    }
  }

  /** However consumers crash, reclaim and retry, the requests of a run cause at most a fixed number of
      callback runs, when their policies are modest. */
  lemma CallbackRunsAreBounded(t: Trace, reclaimCount: nat, slack: nat)
    requires IsRun(t, reclaimCount, slack)
    requires forall a {:trigger a in t.actions} :: a in t.actions && a.Request? && a.input.Some? ==>
        Modest(a.input.value)
    ensures t.streams[|t.actions|].runs <= Allowances(t.actions, reclaimCount + 1 + slack)
  {
    RunIsPaid(t, reclaimCount, slack, |t.actions|);
    assert t.actions[..|t.actions|] == t.actions;
  }

  function Power(base: nat, exponent: nat): nat {
    if exponent == 0 then 1 else base * Power(base, exponent - 1)
  }

  lemma {:induction false} RunCostIsGeometric(perEntry: nat, level: nat)
    requires perEntry >= 1
    ensures (perEntry - 1) * RunCost(perEntry, level) == Power(perEntry, level + 1) - 1
  {
    if level == 0 {
      assert Power(perEntry, 1) == perEntry * Power(perEntry, 0);
    } else {
      var less := RunCost(perEntry, level - 1);
      RunCostIsGeometric(perEntry, level - 1);
      assert (perEntry - 1) * (1 + perEntry * less) == (perEntry - 1) + perEntry * ((perEntry - 1) * less);
      assert perEntry * (Power(perEntry, level) - 1) == Power(perEntry, level + 1) - perEntry;
    }
  }

  lemma {:induction false} SingleRunCost(level: nat)
    ensures RunCost(1, level) == level + 1
  {
    if level > 0 {
      SingleRunCost(level - 1);
    }
  }

  lemma Factors(p: int, cost: int, power: int)
    requires (p - 1) * cost == power - 1
    ensures (p - 1) * (p * cost) == p * power - p
  {
    calc {
      (p - 1) * (p * cost);
      p * ((p - 1) * cost);
      p * (power - 1);
      p * power - p;
    }
  }

  lemma FirstAllowance(input: Input, perEntry: nat)
    requires input.tries == 0
    ensures Allowance(Request(Some(input)), perEntry) == perEntry * RunCost(perEntry, MaxRetries(input.policies) + 1)
  {
    hide RunCost, MaxRetries;
    var e := NewEntry(Some(input), None);
    assert LevelOf(e) == MaxRetries(input.policies) + 1 && e.granted == 0;
  }

  /** What one entry costs when each entry may be run `perEntry` times. */
  lemma TreeSize(perEntry: nat, level: nat)
    requires perEntry >= 1
    ensures (perEntry - 1) * (perEntry * RunCost(perEntry, level)) == Power(perEntry, level + 2) - perEntry
    ensures perEntry == 1 ==> perEntry * RunCost(perEntry, level) == level + 1
  {
    RunCostIsGeometric(perEntry, level);
    Factors(perEntry, RunCost(perEntry, level), Power(perEntry, level + 1));
    if perEntry == 1 {
      SingleRunCost(level);
    }
  }

  /** One first request is allowed p + p^2 + ... + p^(m + 2) callback runs, where each entry may be run p times and m
      is the largest retry count of its policies: as many as a complete tree of entries and retries has. */
  lemma AllowanceOfFirstRequest(input: Input, perEntry: nat)
    requires input.tries == 0 && perEntry >= 1
    ensures var allowance, m := Allowance(Request(Some(input)), perEntry), MaxRetries(input.policies);
      && (perEntry - 1) * allowance == Power(perEntry, m + 3) - perEntry
      && (perEntry == 1 ==> allowance == m + 2)
  {
    FirstAllowance(input, perEntry);
    TreeSize(perEntry, MaxRetries(input.policies) + 1);
  }
}
