/** The stream signaler as it is written: one consumer's code, step by step, over a shared stream service.
    Every method only takes steps of the model in `Streams`, so what is proved of all runs holds here. */
module Signaler {
  import opened Options
  import opened Streams

  const XPENDING_COUNT := 10

  /** What a call of the worker's function comes to. */
  datatype Outcome = Returned(output: Option<Output>) | Threw

  /** The result the signaler goes on with. */
  function ResultOf(input: Input, outcome: Outcome): Option<Output> {
    match outcome
    case Returned(output) => output
    case Threw => Some(Unhandled(input))
  }

  /** The shared stream, and the run that led to its state. */
  class StreamService {
    const reclaimCount: nat
    var state: Stream
    ghost var run: Trace

    ghost predicate Valid()
      reads this
    {
      IsRun(run, reclaimCount, 0) && run.streams[|run.actions|] == state
    }

    constructor (reclaimCount: nat)
      ensures Valid() && state == EMPTY && this.reclaimCount == reclaimCount
    {
      this.reclaimCount := reclaimCount;
      state := EMPTY;
      run := Trace([EMPTY], []);
    }

    /** One command, by whichever consumer. */
    method Step(a: Action)
      requires Valid() && Enabled(state, a, 0)
      modifies this
      ensures Valid() && state == After(old(state), a, reclaimCount, 0)
      ensures run.actions == old(run.actions) + [a]
    {
      RunExtends(run, a, reclaimCount, 0);
      state := After(state, a, reclaimCount, 0);
      run := Trace(run.streams + [state], run.actions + [a]);
    }
  }

  /** The pending ids among the first `n` entries, lowest first, `limit` at most. */
  function FirstPending(s: Stream, n: nat, limit: nat): seq<Id>
    requires n <= |s.entries|
  {
    if n == 0 then [] else
      var ids := FirstPending(s, n - 1, limit);
      if IsPending(s, n - 1) && |ids| < limit then ids + [n - 1] else ids
  }

  lemma {:induction false} FirstPendingAre(s: Stream, n: nat, limit: nat)
    requires n <= |s.entries|
    ensures var ids := FirstPending(s, n, limit);
      && |ids| <= limit
      && (forall i :: 0 <= i < |ids| ==> ids[i] < n && IsPending(s, ids[i]))
      && (forall i, j :: 0 <= i < j < |ids| ==> ids[i] < ids[j])
      && (forall id :: 0 <= id < n && IsPending(s, id) && id !in ids ==>
          |ids| == limit && forall i :: 0 <= i < |ids| ==> ids[i] < id)
  {
    if n > 0 {
      FirstPendingAre(s, n - 1, limit);
    }
  }

  /** Outside `keys`, consumers hold what they held. */
  ghost predicate SameHolds(s: Stream, s': Stream, keys: set<Key>) {
    forall k: Key {:trigger k in s'.holds} :: k !in keys ==>
      (k in s.holds <==> k in s'.holds) && (k in s.holds ==> s'.holds[k] == s.holds[k])
  }

  /** The consumer knows the entry's present delivery count. */
  ghost predicate Seen(s: Stream, c: Consumer, id: Id) {
    id < |s.entries| && (c, id) in s.views && s.views[(c, id)] == s.entries[id].delivered
  }

  /** A pending entry as the reclaim loop found it, still to be looked at. */
  ghost predicate Untouched(start: Stream, s: Stream, c: Consumer, id: Id) {
    && id < |start.entries| && id < |s.entries| && s.entries[id] == start.entries[id]
    && IsPending(s, id) && Seen(s, c, id) && (c, id) !in s.holds
  }

  /** The entry's history has grown by one answer, a publication that stands where it landed. */
  ghost predicate OneMoreAnswer(e: Entry, s: Stream, id: Id, p: Publication) {
    id < |s.entries|
    && var answers, nth := s.entries[id].answers, |e.answers|;
    |answers| == nth + 1 && answers[..nth] == e.answers && answers[nth].p == p && InAStream(s, id, nth, answers[nth])
  }

  /** What the reclaim loop owes a pending entry. */
  ghost predicate Settled(e: Entry, s: Stream, c: Consumer, id: Id, idle: bool, reclaimCount: nat) {
    && id < |s.entries|
    && var e' := s.entries[id];
    if !idle then
      e' == e && (c, id) !in s.holds
    else if e.delivered <= reclaimCount then
      e' == e.(delivered := e.delivered + 1, granted := e.granted + 1) && Holds(s, c, id, ToRun)
    else if e.input.None? then
      e' == e.(delivered := e.delivered + 1, expiries := e.expiries + 1) && (c, id) !in s.holds
    else
      && e' == e.(delivered := e.delivered + 1, expiries := e.expiries + 1, answers := e'.answers, present := false)
      && OneMoreAnswer(e, s, id, PublishResponse(e.input.value, Some(Unacknowledged(e.input.value))))
      && (c, id) !in s.holds
  }

  /** Only entry `id`, and what consumer `c` holds and knows of it, may differ; new entries may follow. */
  ghost predicate Moved(s: Stream, s': Stream, c: Consumer, id: Id) {
    && Grows(s, s') && s'.runs == s.runs && SameHolds(s, s', {(c, id)})
    && (forall i {:trigger s'.entries[i]} :: 0 <= i < |s.entries| && i != id ==> s'.entries[i] == s.entries[i])
    && (forall i {:trigger Seen(s', c, i)} :: i != id && Seen(s, c, i) ==> Seen(s', c, i))
  }

  lemma ClaimMoves(s: Stream, c: Consumer, id: Id, reclaimCount: nat)
    requires Enabled(s, Claim(c, id), 0)
    ensures Moved(s, After(s, Claim(c, id), reclaimCount, 0), c, id)
  {
    StepGrows(s, Claim(c, id), reclaimCount, 0);
  }

  lemma ExpireMoves(s: Stream, c: Consumer, id: Id, reclaimCount: nat)
    requires Holds(s, c, id, ToExpire)
    ensures var s', e := After(s, Expire(c, id), reclaimCount, 0), s.entries[id];
      && Moved(s, s', c, id)
      && if e.input.None? then s'.entries[id] == e && (c, id) !in s'.holds else
           && Holds(s', c, id, ToAck) && s'.entries[id] == e.(answers := s'.entries[id].answers)
           && OneMoreAnswer(e, s', id, PublishResponse(e.input.value, Some(Unacknowledged(e.input.value))))
  {
    StepGrows(s, Expire(c, id), reclaimCount, 0);
    if s.entries[id].input.Some? {
      var p := PublishResponse(s.entries[id].input.value, Some(Unacknowledged(s.entries[id].input.value)));
      assert After(s, Expire(c, id), reclaimCount, 0) == PublishFor(s, c, id, p);
      PublicationLands(s, c, id, p);
    }
  }

  lemma OneMoreAnswerGrows(e: Entry, s: Stream, s': Stream, id: Id, p: Publication)
    requires OneMoreAnswer(e, s, id, p) && Grows(s, s') && s'.entries[id].answers == s.entries[id].answers
    ensures OneMoreAnswer(e, s', id, p)
  {
    InAStreamGrows(s, s', id, |e.answers|, s.entries[id].answers[|e.answers|]);
  }

  lemma AckMoves(s: Stream, c: Consumer, id: Id, reclaimCount: nat)
    requires Holds(s, c, id, ToAck)
    ensures var s' := After(s, Ack(c, id), reclaimCount, 0);
      Moved(s, s', c, id) && (c, id) !in s'.holds && s'.entries[id] == s.entries[id].(present := false)
  {
    StepGrows(s, Ack(c, id), reclaimCount, 0);
  }

  lemma MovedTwice(s: Stream, middle: Stream, s': Stream, c: Consumer, id: Id)
    requires Moved(s, middle, c, id) && Moved(middle, s', c, id)
    ensures Moved(s, s', c, id)
  {
    forall i | i != id && Seen(s, c, i) ensures Seen(s', c, i) {
      assert Seen(middle, c, i);
    }
  }

  /** Settling one entry leaves the others as they were. */
  lemma OthersStay(start: Stream, s: Stream, s': Stream, c: Consumer, id: Id, other: Id, idle: bool, reclaimCount: nat)
    requires Moved(s, s', c, id) && other != id && other < |start.entries|
    ensures Untouched(start, s, c, other) ==> Untouched(start, s', c, other)
    ensures Settled(start.entries[other], s, c, other, idle, reclaimCount)
        ==> Settled(start.entries[other], s', c, other, idle, reclaimCount)
  {
    assert (c, other) in s'.holds <==> (c, other) in s.holds;
    if Settled(start.entries[other], s, c, other, idle, reclaimCount) {
      var e := start.entries[other];
      if idle && e.delivered > reclaimCount && e.input.Some? {
        OneMoreAnswerGrows(e, s, s', other, PublishResponse(e.input.value, Some(Unacknowledged(e.input.value))));
      }
    }
  }

  /** Not JSON: the message is removed, and nothing else happens. */
  ghost predicate Discarded(s: Stream, s': Stream, c: Consumer, id: Id)
    requires id < |s.entries|
  {
    s' == s.(entries := s.entries[id := s.entries[id].(present := false)], holds := s.holds - {(c, id)})
  }

  /** The entries and responses that a publication on entry `id`'s account adds. */
  function Added(p: Publication, id: Id, nth: nat): (seq<Entry>, seq<Response>) {
    match p
    case Retry(input) => ([NewEntry(Some(input), Some((id, nth)))], [])
    case Respond(output) => ([], [Response(output, id, nth)])
    case _ => ([], [])
  }

  /** The entry after one more run, its result answered. */
  function RanAndAnswered(s: Stream, id: Id, result: Option<Output>, p: Publication): Entry
    requires id < |s.entries|
  {
    var e := s.entries[id];
    e.(results := e.results + [result], answers := e.answers + [Answer(p, Landing(s, p))])
  }

  /** One more run; its result answered and the message removed, unless the answer could not be made. */
  ghost predicate Answered(s: Stream, s': Stream, c: Consumer, id: Id, result: Option<Output>)
    requires id < |s.entries| && s.entries[id].input.Some?
  {
    var e, p := s.entries[id], PublishResponse(s.entries[id].input.value, result);
    var added := Added(p, id, |e.answers|);
    && s'.runs == s.runs + 1 && s'.holds == s.holds - {(c, id)} && s'.views == s.views
    && s'.entries == (if p == Throw then s.entries[id := e.(results := e.results + [result])]
                      else s.entries[id := RanAndAnswered(s, id, result, p).(present := false)] + added.0)
    && s'.responses == s.responses + added.1
  }

  /** Before the acknowledgement. */
  ghost predicate Unremoved(s: Stream, s': Stream, c: Consumer, id: Id, result: Option<Output>)
    requires id < |s.entries| && s.entries[id].input.Some?
  {
    var e, p := s.entries[id], PublishResponse(s.entries[id].input.value, result);
    var added := Added(p, id, |e.answers|);
    && s'.runs == s.runs + 1 && s'.holds == s.holds[(c, id) := ToAck] && s'.views == s.views
    && s'.entries == s.entries[id := RanAndAnswered(s, id, result, p)] + added.0
    && s'.responses == s.responses + added.1
  }

  lemma RanAndPublished(s: Stream, ran: Stream, s': Stream, c: Consumer, id: Id, result: Option<Output>,
      reclaimCount: nat)
    requires Holds(s, c, id, ToRun) && s.entries[id].input.Some?
    requires ran == After(s, RunCallback(c, id, result), reclaimCount, 0)
    requires Enabled(ran, Publish(c, id), 0) && s' == After(ran, Publish(c, id), reclaimCount, 0)
    ensures if PublishResponse(s.entries[id].input.value, result) == Throw then Answered(s, s', c, id, result)
            else Unremoved(s, s', c, id, result) && Holds(s', c, id, ToAck)
  {
    var p := PublishResponse(s.entries[id].input.value, result);
    assert s' == PublishFor(ran, c, id, p);
  }

  lemma ThenAcknowledged(s: Stream, published: Stream, c: Consumer, id: Id, result: Option<Output>, reclaimCount: nat)
    requires id < |s.entries| && s.entries[id].input.Some? && (c, id) in s.holds
    requires PublishResponse(s.entries[id].input.value, result) != Throw
    requires Unremoved(s, published, c, id, result) && Enabled(published, Ack(c, id), 0)
    ensures Answered(s, After(published, Ack(c, id), reclaimCount, 0), c, id, result)
  {
  }

  /** A new response, the first one of an answer, and nothing else new. */
  ghost predicate OneResponse(s: Stream, s': Stream, id: Id, output: Output)
    requires id < |s.entries|
  {
    && s'.responses == s.responses + [Response(output, id, |s.entries[id].answers|)]
    && |s'.entries| == |s.entries| && !s'.entries[id].present
  }

  /** The request once more, one try later, and nothing else new. */
  ghost predicate OneRetry(s: Stream, s': Stream, id: Id, input: Input)
    requires id < |s.entries|
  {
    && s'.responses == s.responses && |s'.entries| == |s.entries| + 1 && !s'.entries[id].present
    && s'.entries[|s.entries|].input == Some(Input(input.metadata, input.body, input.tries + 1, input.policies))
    && s'.entries[|s.entries|].source == Some((id, |s.entries[id].answers|))
    && s'.entries[|s.entries|].present && s'.entries[|s.entries|].delivered == 0
  }

  /** Consuming a message, in terms of what its callback did. */
  lemma AnsweredSays(s: Stream, s': Stream, c: Consumer, id: Id, input: Input, outcome: Outcome)
    requires id < |s.entries| && s.entries[id].input == Some(input) && Answered(s, s', c, id, ResultOf(input, outcome))
    ensures outcome == Returned(None) ==>
      s'.responses == s.responses && |s'.entries| == |s.entries| && !s'.entries[id].present
    ensures outcome.Returned? && outcome.output.Some? && outcome.output.value.status != Error ==>
      OneResponse(s, s', id, outcome.output.value)
    ensures outcome.Threw? ==>
      if 500 in input.policies && (input.policies[500] >= input.tries || input.policies[500] >= 4) then
        OneRetry(s, s', id, input)
      else OneResponse(s, s', id, Output(Error, Some(500), input.metadata, ""))
  {
  }

  /** What stands in a stream for a message that was delivered too often. */
  lemma ExpiredSays(e: Entry, s: Stream, id: Id, input: Input) returns (k: nat)
    requires e.input == Some(input)
    requires OneMoreAnswer(e, s, id, PublishResponse(input, Some(Unacknowledged(input))))
    ensures if 999 in input.policies && (input.policies[999] >= input.tries || input.policies[999] >= 4) then
        && k < |s.entries| && s.entries[k].source == Some((id, |e.answers|))
        && s.entries[k].input == Some(Input(input.metadata, input.body, input.tries + 1, input.policies))
      else
        && k < |s.responses|
        && s.responses[k] == Response(Output(Error, Some(999), input.metadata,
             "stream message max delivery count exceeded"), id, |e.answers|)
  {
    k := s.entries[id].answers[|e.answers|].at;
  }

  class StreamSignaler {
    const stream: StreamService
    const consumer: Consumer
    var errorCount: nat

    constructor (stream: StreamService, consumer: Consumer)
      ensures this.stream == stream && this.consumer == consumer && errorCount == 0
    {
      this.stream := stream;
      this.consumer := consumer;
      errorCount := 0;
    }

    method ExecStreamLeg(input: Input, outcome: Outcome) returns (result: Option<Output>)
      ensures result == ResultOf(input, outcome)
      ensures outcome.Returned? ==> result == outcome.output
      ensures outcome.Threw? ==> result == Some(Output(Error, Some(500), input.metadata, ""))
    {
      match outcome
      case Returned(output) => result := output;
      case Threw => result := Some(Unhandled(input));
    }

    /** The decision alone; the message itself is added by the step that follows. */
    method Respond(input: Input, result: Option<Output>) returns (p: Publication)
      ensures p == PublishResponse(input, result)
      ensures p.Nothing? <==> result.None?
      ensures result.Some? && result.value.status != Error ==> p == Publication.Respond(result.value)
      ensures p.Throw? <==> result.Some? && result.value.status == Error && result.value.code.None?
      ensures p.Retry? <==>
        && result.Some? && result.value.status == Error && result.value.code.Some?
        && var code := result.value.code.value;
        code in input.policies && (input.policies[code] >= input.tries || input.policies[code] >= 4)
      ensures p.Retry? ==> p.input == Input(input.metadata, input.body, input.tries + 1, input.policies)
      ensures p.Respond? && result.value.status == Error ==>
        && result.value.code.Some? && var code := result.value.code.value;
        p.output == Output(Error, Some(if code == 0 then 500 else code), input.metadata, result.value.body)
    {
      p := Nothing;
      if result.Some? {
        var output := result.value;
        if output.status == Error {
          if output.code.None? {
            return Throw;
          }
          var tryCount := if input.tries < MAX_RETRIES then input.tries else MAX_RETRIES;
          if output.code.value in input.policies && input.policies[output.code.value] >= tryCount {
            return Retry(input.(tries := input.tries + 1));
          }
          output := StructureError(input, output);
        }
        p := Publication.Respond(output);
      }
    }

    /** Runs one delivered message to its end: callback, publication, acknowledgement. */
    method ConsumeOne(id: Id, outcome: Outcome) returns (threw: bool)
      requires stream.Valid() && Holds(stream.state, consumer, id, ToRun)
      modifies this, stream
      ensures stream.Valid() && (consumer, id) !in stream.state.holds
      ensures if old(stream.state).entries[id].input.None? then
          !threw && errorCount == old(errorCount) && Discarded(old(stream.state), stream.state, consumer, id)
        else
          var input := old(stream.state).entries[id].input.value;
          && (threw <==> PublishResponse(input, ResultOf(input, outcome)) == Throw)
          && errorCount == 0 && Answered(old(stream.state), stream.state, consumer, id, ResultOf(input, outcome))
      ensures old(stream.state).entries[id].input.Some? ==>
        var s, s', input := old(stream.state), stream.state, old(stream.state).entries[id].input.value;
        && (outcome == Returned(None) ==>
              s'.responses == s.responses && |s'.entries| == |s.entries| && !s'.entries[id].present)
        && (outcome.Returned? && outcome.output.Some? && outcome.output.value.status != Error ==>
              && s'.responses == s.responses + [Response(outcome.output.value, id, |s.entries[id].answers|)]
              && OneResponse(s, s', id, outcome.output.value))
        && (outcome.Threw? ==>
              if 500 in input.policies && (input.policies[500] >= input.tries || input.policies[500] >= 4) then
                OneRetry(s, s', id, input)
              else OneResponse(s, s', id, Output(Error, Some(500), input.metadata, "")))
    {
      ghost var before := stream.state;
      var input := stream.state.entries[id].input;
      if input.None? {
        stream.Step(Skip(consumer, id));
        stream.Step(Ack(consumer, id));
        return false;
      }
      var result := ExecStreamLeg(input.value, outcome);
      stream.Step(RunCallback(consumer, id, result));
      errorCount := 0;
      var p := Respond(input.value, result);
      ghost var ran := stream.state;
      stream.Step(Publish(consumer, id));
      RanAndPublished(before, ran, stream.state, consumer, id, result, stream.reclaimCount);
      if p == Throw {
        return true;
      }
      ghost var published := stream.state;
      stream.Step(Ack(consumer, id));
      ThenAcknowledged(before, published, consumer, id, result, stream.reclaimCount);
      AnsweredSays(before, stream.state, consumer, id, input.value, outcome);
      threw := false;
    }

    /** XPENDING: the counts of the first few pending messages. */
    method XPending(limit: nat) returns (ids: seq<Id>)
      requires stream.Valid()
      modifies stream
      ensures stream.Valid() && ids == FirstPending(old(stream.state), |old(stream.state).entries|, limit)
      ensures stream.state.entries == old(stream.state).entries && stream.state.holds == old(stream.state).holds
      ensures stream.state.runs == old(stream.state).runs
      ensures forall i :: 0 <= i < |ids| ==> Seen(stream.state, consumer, ids[i])
    {
      ids := [];
      var id := 0;
      while id < |stream.state.entries|
        invariant stream.Valid()
        invariant stream.state.entries == old(stream.state).entries && stream.state.holds == old(stream.state).holds
        invariant stream.state.runs == old(stream.state).runs
        invariant 0 <= id <= |stream.state.entries|
        invariant ids == FirstPending(old(stream.state), id, limit)
        invariant forall i :: 0 <= i < |ids| ==> ids[i] < id && Seen(stream.state, consumer, ids[i])
        decreases |stream.state.entries| - id
      {
        if stream.state.entries[id].present && stream.state.entries[id].delivered > 0 && |ids| < limit {
          stream.Step(Peek(consumer, id));
          ids := ids + [id];
        }
        id := id + 1;
      }
    }

    /** Answers a message that was delivered too often; one that is not JSON can be neither answered nor removed. */
    method ExpireUnacknowledged(id: Id)
      requires stream.Valid() && Holds(stream.state, consumer, id, ToExpire)
      modifies stream
      ensures stream.Valid() && (consumer, id) !in stream.state.holds
      ensures Moved(old(stream.state), stream.state, consumer, id)
      ensures var e, e' := old(stream.state).entries[id], stream.state.entries[id];
        if e.input.None? then e' == e else
          && e' == e.(answers := e'.answers, present := false)
          && OneMoreAnswer(e, stream.state, id, PublishResponse(e.input.value, Some(Unacknowledged(e.input.value))))
      ensures old(stream.state).entries[id].input.Some? ==>
        var s', nth := stream.state, |old(stream.state).entries[id].answers|;
        var input := old(stream.state).entries[id].input.value;
        if 999 in input.policies && (input.policies[999] >= input.tries || input.policies[999] >= 4) then
          exists k {:trigger s'.entries[k]} :: 0 <= k < |s'.entries| && s'.entries[k].source == Some((id, nth))
            && s'.entries[k].input == Some(Input(input.metadata, input.body, input.tries + 1, input.policies))
        else
          Response(Output(Error, Some(999), input.metadata, "stream message max delivery count exceeded"), id, nth)
          in s'.responses
    {
      var input := stream.state.entries[id].input;
      ghost var before := stream.state;
      stream.Step(Expire(consumer, id));
      ghost var published := stream.state;
      ExpireMoves(before, consumer, id, stream.reclaimCount);
      if input.None? {
        return;
      }
      var p := Respond(input.value, Some(Unacknowledged(input.value)));
      stream.Step(Ack(consumer, id));
      AckMoves(published, consumer, id, stream.reclaimCount);
      OneMoreAnswerGrows(before.entries[id], published, stream.state, id, p);
      ghost var k := ExpiredSays(before.entries[id], stream.state, id, input.value);
      MovedTwice(before, published, stream.state, consumer, id);
    }

    /** XCLAIM, and the test of the count read before it. */
    method ReclaimOne(id: Id, idle: bool) returns (message: bool)
      requires stream.Valid() && IsPending(stream.state, id) && Seen(stream.state, consumer, id)
      requires (consumer, id) !in stream.state.holds
      modifies stream
      ensures stream.Valid() && Moved(old(stream.state), stream.state, consumer, id)
      ensures Settled(old(stream.state).entries[id], stream.state, consumer, id, idle, stream.reclaimCount)
      ensures message <==> idle && old(stream.state).entries[id].delivered <= stream.reclaimCount
    {
      message := false;
      if idle {
        var deliveryCount := stream.state.views[(consumer, id)];
        ghost var before := stream.state;
        stream.Step(Claim(consumer, id));
        ClaimMoves(before, consumer, id, stream.reclaimCount);
        if deliveryCount <= stream.reclaimCount {
          message := true;
        } else {
          ghost var claimed := stream.state;
          ExpireUnacknowledged(id);
          MovedTwice(before, claimed, stream.state, consumer, id);
        }
      }
    }

    /** Looks at the first pending messages and takes over those idle for too long: returned to be run when
        delivered at most `reclaimCount` times, otherwise answered with an error. */
    method ClaimUnacknowledged(idle: set<Id>, limit: nat := XPENDING_COUNT) returns (messages: seq<Id>)
      requires stream.Valid() && forall k :: k in stream.state.holds ==> k.0 != consumer
      modifies stream
      ensures stream.Valid() && |old(stream.state).entries| <= |stream.state.entries|
      ensures var ids := FirstPending(old(stream.state), |old(stream.state).entries|, limit);
        && (forall id {:trigger id in ids} :: id in ids ==>
              id < |old(stream.state).entries|
              && Settled(old(stream.state).entries[id], stream.state, consumer, id, id in idle, stream.reclaimCount))
        && (forall id :: id in messages <==>
              id in ids && id in idle && id < |old(stream.state).entries|
                  && old(stream.state).entries[id].delivered <= stream.reclaimCount)
        && (forall id {:trigger stream.state.entries[id]} :: 0 <= id < |old(stream.state).entries| && id !in ids ==>
              stream.state.entries[id] == old(stream.state).entries[id])
      ensures stream.state.runs == old(stream.state).runs
    {
      hide IsRun, Settled, FirstPending, Seen, SameHolds;
      var ids := XPending(limit);
      ghost var start := stream.state;
      FirstPendingAre(old(stream.state), |start.entries|, limit);
      messages := [];
      var i := 0;
      while i < |ids|
        invariant 0 <= i <= |ids|
        invariant stream.Valid() && |start.entries| <= |stream.state.entries| && stream.state.runs == start.runs
        invariant forall j {:trigger ids[j]} :: 0 <= j < i ==>
          Settled(start.entries[ids[j]], stream.state, consumer, ids[j], ids[j] in idle, stream.reclaimCount)
        invariant forall j {:trigger ids[j]} :: i <= j < |ids| ==> Untouched(start, stream.state, consumer, ids[j])
        invariant forall id {:trigger stream.state.entries[id]} :: 0 <= id < |start.entries| && id !in ids ==>
          stream.state.entries[id] == start.entries[id]
        invariant forall id :: id in messages <==>
          id in ids[..i] && id in idle && start.entries[id].delivered <= stream.reclaimCount
      {
        ghost var before := stream.state;
        assert Untouched(start, before, consumer, ids[i]);
        var message := ReclaimOne(ids[i], ids[i] in idle);
        forall j | 0 <= j < |ids| && j != i
          ensures j < i ==> Settled(start.entries[ids[j]], stream.state, consumer, ids[j], ids[j] in idle,
              stream.reclaimCount)
          ensures j > i ==> Untouched(start, stream.state, consumer, ids[j])
        {
          OthersStay(start, before, stream.state, consumer, ids[i], ids[j], ids[j] in idle, stream.reclaimCount);
        }
        if message {
          messages := messages + [ids[i]];
        }
        i := i + 1;
        assert ids[..i] == ids[..i - 1] + [ids[i - 1]];
      }
      assert ids[..i] == ids;
    }
  }
}
