/** A worker's stream as many consumers share it. Every step is one Redis command or one step inside a
    consumer; a consumer may die between any two. */
module Streams {
  import opened Options
  import opened Sums

  type Consumer = string
  type Id = nat

  const MAX_RETRIES := 4
  const SYSTEM_STATUS_CODE := 999
  const UNKNOWN_STATUS_CODE := 500

  /** Whom a message is about: the job, the activity and its address, and the worker's topic. */
  datatype Metadata = Metadata(jid: string, aid: string, dad: string, topic: string)

  /** A worker request. `policies` gives the retry count allowed for an error code. */
  datatype Input = Input(metadata: Metadata, body: string, tries: nat, policies: map<int, int>)

  datatype Status = Success | Pending | Error
  datatype Output = Output(status: Status, code: Option<int>, metadata: Metadata, body: string)

  /** What `publishResponse` does about a callback's result: nothing for none, retry, respond, or throw
      (an error result without a code). */
  datatype Publication = Nothing | Retry(input: Input) | Respond(output: Output) | Throw

  function Min(a: int, b: int): int {
    if a <= b then a else b
  }

  predicate ShouldRetry(input: Input, code: int) {
    code in input.policies && input.policies[code] >= Min(input.tries, MAX_RETRIES)
  }

  /** An error answer is rebuilt: it carries the request's own metadata, and never the code 0. */
  function StructureError(input: Input, output: Output): Output
    requires output.code.Some?
  {
    Output(Error, Some(if output.code.value == 0 then UNKNOWN_STATUS_CODE else output.code.value), input.metadata,
        output.body)
  }

  function PublishResponse(input: Input, result: Option<Output>): Publication {
    match result
    case None => Nothing
    case Some(output) =>
      if output.status != Error then Respond(output)
      else if output.code.None? then Throw
      else if ShouldRetry(input, output.code.value) then Retry(input.(tries := input.tries + 1))
      else Respond(StructureError(input, output))
  }

  /** The result that stands in for a callback that threw. */
  function Unhandled(input: Input): Output {
    Output(Error, Some(UNKNOWN_STATUS_CODE), input.metadata, "")
  }

  /** The result that stands in for a message delivered too often. */
  function Unacknowledged(input: Input): Output {
    Output(Error, Some(SYSTEM_STATUS_CODE), input.metadata, "stream message max delivery count exceeded")
  }

  /** Whatever becomes of a request, errors and retries are about the request itself. */
  lemma AnswersKeepMetadata(input: Input, result: Option<Output>)
    ensures var p := PublishResponse(input, result);
      && (p.Retry? ==>
            p.input.metadata == input.metadata && p.input.body == input.body && p.input.policies == input.policies)
      && (p.Respond? && p.output.status == Error ==> p.output.metadata == input.metadata && p.output.code.Some?)
  {
  }

  /* ---------- the stream ---------- */

  /** A publication made on an entry's account, and where it landed: the response's place in the engine's stream,
      or the retry's entry. */
  datatype Answer = Answer(p: Publication, at: nat)

  /** An entry and its history. `input` is None when the message is not JSON; `source` tells, for a retry, which
      answer of which entry it is. */
  datatype Entry = Entry(
    input: Option<Input>,
    source: Option<(Id, nat)>,
    present: bool,               // not yet deleted
    delivered: nat,              // Redis's delivery count
    granted: nat,                // deliveries that allowed a callback run
    stale: nat,                  // claims decided on an outdated delivery count
    expiries: nat,               // claims that found the entry delivered too often
    results: seq<Option<Output>>,// results of the callback runs
    answers: seq<Answer>)        // what consumers published on its account

  /** A response in the engine's stream, with the answer it is: the `nth` of entry `owner`. */
  datatype Response = Response(output: Output, owner: Id, nth: nat)

  /** What a consumer is about to do with an entry it holds. */
  datatype Phase = ToRun | ToPublish(result: Option<Output>) | ToExpire | ToAck

  type Key = (Consumer, Id)

  datatype Stream = Stream(
    entries: seq<Entry>,         // by id; never forgotten here, only marked absent
    holds: map<Key, Phase>,
    views: map<Key, nat>,        // delivery counts consumers have read with XPENDING
    responses: seq<Response>,    // published to the engine's stream
    runs: nat)                   // callback runs in all

  datatype Action =
    | Request(input: Option<Input>)              // XADD
    | Read(c: Consumer, id: Id)                  // XREADGROUP '>'
    | Peek(c: Consumer, id: Id)                  // XPENDING
    | Claim(c: Consumer, id: Id)                 // XCLAIM, then the test of the delivery count
    | RunCallback(c: Consumer, id: Id, result: Option<Output>)
    | Skip(c: Consumer, id: Id)                  // not JSON: nothing is run or published
    | Publish(c: Consumer, id: Id)
    | Expire(c: Consumer, id: Id)
    | Ack(c: Consumer, id: Id)                   // XACK and XDEL in one MULTI
    | Crash(c: Consumer, id: Id)                 // the consumer dies or its command fails

  predicate Holds(s: Stream, c: Consumer, id: Id, p: Phase) {
    (c, id) in s.holds && s.holds[(c, id)] == p && id < |s.entries|
  }

  predicate IsPending(s: Stream, id: Id) {
    id < |s.entries| && s.entries[id].present && s.entries[id].delivered > 0
  }

  predicate IsStale(s: Stream, c: Consumer, id: Id) {
    (c, id) in s.views && id < |s.entries| && s.views[(c, id)] != s.entries[id].delivered
  }

  /** `slack` bounds how many claims of one entry are decided on an outdated delivery count; 0 when
      XPENDING and XCLAIM are never separated by another consumer's claim. */
  predicate Enabled(s: Stream, a: Action, slack: nat) {
    match a
    case Request(input) => true
    case Read(c, id) => id < |s.entries| && s.entries[id].present && s.entries[id].delivered == 0 && (c, id) !in s.holds
    case Peek(c, id) => IsPending(s, id)
    case Claim(c, id) =>
      IsPending(s, id) && (c, id) in s.views && (c, id) !in s.holds
      && (IsStale(s, c, id) ==> s.entries[id].stale < slack)
    case RunCallback(c, id, result) => Holds(s, c, id, ToRun) && s.entries[id].input.Some?
    case Skip(c, id) => Holds(s, c, id, ToRun) && s.entries[id].input.None?
    case Publish(c, id) =>
      (c, id) in s.holds && s.holds[(c, id)].ToPublish? && id < |s.entries| && s.entries[id].input.Some?
    case Expire(c, id) => Holds(s, c, id, ToExpire)
    case Ack(c, id) => Holds(s, c, id, ToAck)
    case Crash(c, id) => (c, id) in s.holds
  }

  function NewEntry(input: Option<Input>, source: Option<(Id, nat)>): Entry {
    Entry(input, source, true, 0, 0, 0, 0, [], [])
  }

  function Change(s: Stream, id: Id, e: Entry): Stream
    requires id < |s.entries|
  {
    s.(entries := s.entries[id := e])
  }

  /** Where a publication made now will land. */
  function Landing(s: Stream, p: Publication): nat {
    match p
    case Retry(_) => |s.entries|
    case Respond(_) => |s.responses|
    case _ => 0
  }

  /** Publish on an entry's account; the consumer then has only the acknowledgement left. */
  function PublishFor(s: Stream, c: Consumer, id: Id, p: Publication): Stream
    requires id < |s.entries|
  {
    var e := s.entries[id];
    var s' := Change(s, id, e.(answers := e.answers + [Answer(p, Landing(s, p))])).(holds := s.holds[(c, id) := ToAck]);
    match p
    case Nothing => s'
    case Retry(input) => s'.(entries := s'.entries + [NewEntry(Some(input), Some((id, |e.answers|)))])
    case Respond(output) => s'.(responses := s'.responses + [Response(output, id, |e.answers|)])
    case Throw => s.(holds := s.holds - {(c, id)})
  }

  function After(s: Stream, a: Action, reclaimCount: nat, slack: nat): Stream
    requires Enabled(s, a, slack)
  {
    match a
    case Request(input) => s.(entries := s.entries + [NewEntry(input, None)])
    case Read(c, id) =>
      Change(s, id, s.entries[id].(delivered := 1, granted := s.entries[id].granted + 1))
        .(holds := s.holds[(c, id) := ToRun])
    case Peek(c, id) => s.(views := s.views[(c, id) := s.entries[id].delivered])
    case Claim(c, id) =>
      var e := s.entries[id];
      var grant := s.views[(c, id)] <= reclaimCount;
      Change(s, id, e.(delivered := e.delivered + 1,
                       granted := if grant then e.granted + 1 else e.granted,
                       stale := if IsStale(s, c, id) then e.stale + 1 else e.stale,
                       expiries := if grant then e.expiries else e.expiries + 1))
        .(holds := s.holds[(c, id) := if grant then ToRun else ToExpire], views := s.views - {(c, id)})
    case RunCallback(c, id, result) =>
      Change(s, id, s.entries[id].(results := s.entries[id].results + [result]))
        .(holds := s.holds[(c, id) := ToPublish(result)], runs := s.runs + 1)
    case Skip(c, id) => s.(holds := s.holds[(c, id) := ToAck])
    case Publish(c, id) =>
      PublishFor(s, c, id, PublishResponse(s.entries[id].input.value, s.holds[(c, id)].result))
    case Expire(c, id) =>
      if s.entries[id].input.None? then s.(holds := s.holds - {(c, id)})
      else PublishFor(s, c, id, PublishResponse(s.entries[id].input.value,
          Some(Unacknowledged(s.entries[id].input.value))))
    case Ack(c, id) => Change(s, id, s.entries[id].(present := false)).(holds := s.holds - {(c, id)})
    case Crash(c, id) => s.(holds := s.holds - {(c, id)})
  }

  const EMPTY := Stream([], map[], map[], [], 0)

  /* ---------- no message is lost ---------- */

  /** An answer the entry's history calls for: what a run's result, or too many deliveries, require. */
  predicate CalledFor(e: Entry, p: Publication) {
    e.input.Some? && p != Throw
    && ((e.expiries > 0 && p == PublishResponse(e.input.value, Some(Unacknowledged(e.input.value))))
        || exists i :: 0 <= i < |e.results| && p == PublishResponse(e.input.value, e.results[i]))
  }

  /** The answer is really in a stream: where it landed stands this very publication, marked as this answer. */
  predicate InAStream(s: Stream, id: Id, nth: nat, a: Answer) {
    match a.p
    case Nothing => true
    case Retry(input) =>
      a.at < |s.entries| && s.entries[a.at].input == Some(input) && s.entries[a.at].source == Some((id, nth))
    case Respond(output) => a.at < |s.responses| && s.responses[a.at] == Response(output, id, nth)
    case Throw => false
  }

  predicate AnswerOk(s: Stream, id: Id, nth: nat) {
    id < |s.entries| && nth < |s.entries[id].answers|
    && CalledFor(s.entries[id], s.entries[id].answers[nth].p) && InAStream(s, id, nth, s.entries[id].answers[nth])
  }

  ghost predicate EntryOk(s: Stream, id: Id)
    requires id < |s.entries|
  {
    var e := s.entries[id];
    && (forall i {:trigger AnswerOk(s, id, i)} :: 0 <= i < |e.answers| ==> AnswerOk(s, id, i))
    && (!e.present && e.input.Some? ==> e.answers != [])
  }

  ghost predicate HoldOk(s: Stream, k: Key)
    requires k in s.holds
  {
    && k.1 < |s.entries| && s.entries[k.1].delivered > 0
    && match s.holds[k]
       case ToPublish(result) => s.entries[k.1].input.Some? && result in s.entries[k.1].results
       case ToExpire => s.entries[k.1].expiries > 0
       case ToAck => s.entries[k.1].input.Some? ==> s.entries[k.1].answers != []
       case _ => true
  }

  /** A response in the engine's stream is the answer it is marked as, and no other answer landed there. */
  predicate ResponseOk(s: Stream, k: nat) {
    k < |s.responses|
    && var r := s.responses[k];
    r.owner < |s.entries| && r.nth < |s.entries[r.owner].answers|
        && s.entries[r.owner].answers[r.nth] == Answer(Respond(r.output), k)
  }

  /** So is a retry's entry. */
  predicate RetryOk(s: Stream, id: Id) {
    id < |s.entries|
    && match s.entries[id].source
       case None => true
       case Some((owner, nth)) =>
         owner < |s.entries| && nth < |s.entries[owner].answers| && s.entries[id].input.Some?
         && s.entries[owner].answers[nth] == Answer(Retry(s.entries[id].input.value), id)
  }

  ghost predicate DeliveryInv(s: Stream) {
    && (forall id {:trigger s.entries[id]} :: 0 <= id < |s.entries| ==> EntryOk(s, id))
    && (forall k {:trigger s.holds[k]} :: k in s.holds ==> HoldOk(s, k))
    && (forall k {:trigger ResponseOk(s, k)} :: 0 <= k < |s.responses| ==> ResponseOk(s, k))
    && (forall id {:trigger RetryOk(s, id)} :: 0 <= id < |s.entries| ==> RetryOk(s, id))
  }

  lemma EmptyDelivery()
    ensures DeliveryInv(EMPTY)
  {
  }

  /** Streams only grow, and an entry's history with them. */
  ghost predicate Grows(s: Stream, s': Stream) {
    && |s.entries| <= |s'.entries|
    && (forall id {:trigger s'.entries[id]} :: 0 <= id < |s.entries| ==>
          && s'.entries[id].input == s.entries[id].input && s'.entries[id].source == s.entries[id].source
          && s.entries[id].results <= s'.entries[id].results
          && s.entries[id].answers <= s'.entries[id].answers
          && s.entries[id].expiries <= s'.entries[id].expiries
          && s.entries[id].delivered <= s'.entries[id].delivered)
    && s.responses <= s'.responses
  }

  /** The publication a step makes on entry `id`'s account, if any. */
  function Published(s: Stream, a: Action): Option<Publication> {
    match a
    case Publish(c, id) =>
      if (c, id) in s.holds && s.holds[(c, id)].ToPublish? && id < |s.entries| && s.entries[id].input.Some?
      then Some(PublishResponse(s.entries[id].input.value, s.holds[(c, id)].result)) else None
    case Expire(c, id) =>
      if id < |s.entries| && s.entries[id].input.Some?
      then Some(PublishResponse(s.entries[id].input.value, Some(Unacknowledged(s.entries[id].input.value)))) else None
    case _ => None
  }

  lemma PublishingGrows(s: Stream, c: Consumer, id: Id, p: Publication)
    requires id < |s.entries|
    ensures Grows(s, PublishFor(s, c, id, p))
  {
  }

  lemma StepGrows(s: Stream, a: Action, reclaimCount: nat, slack: nat)
    requires Enabled(s, a, slack)
    ensures Grows(s, After(s, a, reclaimCount, slack))
  {
    hide PublishResponse;
    if (a.Publish? || a.Expire?) && s.entries[a.id].input.Some? {
      PublishingGrows(s, a.c, a.id, Published(s, a).value);
      hide PublishFor, Grows;
    } else {
      hide PublishFor;
    }
  }

  lemma CalledForGrows(s: Stream, s': Stream, id: Id, p: Publication)
    requires Grows(s, s') && id < |s.entries| && CalledFor(s.entries[id], p)
    ensures CalledFor(s'.entries[id], p)
  {
    var e, e' := s.entries[id], s'.entries[id];
    if !(e.expiries > 0 && p == PublishResponse(e.input.value, Some(Unacknowledged(e.input.value)))) {
      var i :| 0 <= i < |e.results| && p == PublishResponse(e.input.value, e.results[i]);
      assert e'.results[i] == e.results[i];
    }
  }

  lemma InAStreamGrows(s: Stream, s': Stream, id: Id, nth: nat, a: Answer)
    requires Grows(s, s') && InAStream(s, id, nth, a)
    ensures InAStream(s', id, nth, a)
  {
    if a.p.Retry? {
      assert s'.entries[a.at].input == s.entries[a.at].input;
    } else if a.p.Respond? {
      assert s'.responses[a.at] == s.responses[a.at];
    }
  }

  /** Growth keeps an answer justified and in place. */
  lemma AnswerGrows(s: Stream, s': Stream, id: Id, nth: nat)
    requires Grows(s, s') && AnswerOk(s, id, nth)
    ensures AnswerOk(s', id, nth) && s'.entries[id].answers[nth] == s.entries[id].answers[nth]
  {
    assert s'.entries[id].answers[nth] == s.entries[id].answers[nth];
    CalledForGrows(s, s', id, s.entries[id].answers[nth].p);
    InAStreamGrows(s, s', id, nth, s.entries[id].answers[nth]);
  }

  lemma ResponseGrows(s: Stream, s': Stream, k: nat)
    requires Grows(s, s') && ResponseOk(s, k)
    ensures ResponseOk(s', k)
  {
    var r := s.responses[k];
    assert s'.responses[k] == r && s'.entries[r.owner].answers[r.nth] == s.entries[r.owner].answers[r.nth];
  }

  lemma RetryGrows(s: Stream, s': Stream, id: Id)
    requires Grows(s, s') && RetryOk(s, id)
    ensures RetryOk(s', id)
  {
    assert s'.entries[id].source == s.entries[id].source;
    if s.entries[id].source.Some? {
      var (owner, nth) := s.entries[id].source.value;
      assert s'.entries[owner].answers[nth] == s.entries[owner].answers[nth];
    }
  }

  lemma PublicationIsCalledFor(s: Stream, a: Action, slack: nat)
    requires DeliveryInv(s) && Enabled(s, a, slack) && (a.Publish? || a.Expire?)
    requires Published(s, a).Some? && Published(s, a).value != Throw
    ensures CalledFor(s.entries[a.id], Published(s, a).value)
  {
    assert HoldOk(s, (a.c, a.id));
  }

  /** A publication lands where it says, as the answer it is. */
  lemma PublicationLands(s: Stream, c: Consumer, id: Id, p: Publication)
    requires id < |s.entries| && p != Throw
    ensures var s', nth := PublishFor(s, c, id, p), |s.entries[id].answers|;
      && s'.entries[id].answers == s.entries[id].answers + [Answer(p, Landing(s, p))]
      && InAStream(s', id, nth, Answer(p, Landing(s, p)))
      && (p.Respond? ==> s'.responses == s.responses + [Response(p.output, id, nth)])
      && (!p.Respond? ==> s'.responses == s.responses)
      && (p.Retry? ==>
            |s'.entries| == |s.entries| + 1 && s'.entries[|s.entries|] == NewEntry(Some(p.input), Some((id, nth))))
      && (!p.Retry? ==> |s'.entries| == |s.entries|)
  {
  }

  /** An answer that was not there before was published by the step. */
  lemma AnswersGain(s: Stream, a: Action, reclaimCount: nat, slack: nat, id: Id)
    requires Enabled(s, a, slack) && id < |After(s, a, reclaimCount, slack).entries|
    ensures var answers := After(s, a, reclaimCount, slack).entries[id].answers;
      || (id < |s.entries| && answers == s.entries[id].answers)
      || (id >= |s.entries| && answers == [])
      || ((a.Publish? || a.Expire?) && a.id == id && id < |s.entries| && Published(s, a).Some?
          && Published(s, a).value != Throw
          && answers == s.entries[id].answers + [Answer(Published(s, a).value, Landing(s, Published(s, a).value))]
          && After(s, a, reclaimCount, slack) == PublishFor(s, a.c, id, Published(s, a).value))
  {
    hide PublishResponse, IsStale, Unacknowledged;
  }

  lemma StepKeepsAnswer(s: Stream, a: Action, reclaimCount: nat, slack: nat, id: Id, nth: nat)
    requires DeliveryInv(s) && Enabled(s, a, slack)
    requires var s' := After(s, a, reclaimCount, slack); id < |s'.entries| && nth < |s'.entries[id].answers|
    ensures AnswerOk(After(s, a, reclaimCount, slack), id, nth)
  {
    hide PublishResponse, CalledFor, InAStream;
    var s' := After(s, a, reclaimCount, slack);
    StepGrows(s, a, reclaimCount, slack);
    AnswersGain(s, a, reclaimCount, slack, id);
    hide After, Grows;
    if id < |s.entries| && nth < |s.entries[id].answers| {
      assert EntryOk(s, id) && AnswerOk(s, id, nth);
      AnswerGrows(s, s', id, nth);
    } else {
      var p := Published(s, a).value;
      PublicationIsCalledFor(s, a, slack);
      PublicationLands(s, a.c, id, p);
      CalledForGrows(s, s', id, p);
    }
  }

  lemma StepKeepsEntry(s: Stream, a: Action, reclaimCount: nat, slack: nat, id: Id)
    requires DeliveryInv(s) && Enabled(s, a, slack) && id < |After(s, a, reclaimCount, slack).entries|
    ensures EntryOk(After(s, a, reclaimCount, slack), id)
  {
    var s' := After(s, a, reclaimCount, slack);
    forall i | 0 <= i < |s'.entries[id].answers| ensures AnswerOk(s', id, i) {
      StepKeepsAnswer(s, a, reclaimCount, slack, id, i);
    }
    RemovedIsAnswered(s, a, reclaimCount, slack, id);
  }

  lemma OnlyAckRemoves(s: Stream, a: Action, reclaimCount: nat, slack: nat, id: Id)
    requires Enabled(s, a, slack) && id < |After(s, a, reclaimCount, slack).entries|
    ensures var e := After(s, a, reclaimCount, slack).entries[id];
      !e.present ==>
        id < |s.entries| && e.input == s.entries[id].input && (!s.entries[id].present || (a.Ack? && a.id == id))
  {
    hide PublishResponse;
  }

  lemma RemovedIsAnswered(s: Stream, a: Action, reclaimCount: nat, slack: nat, id: Id)
    requires DeliveryInv(s) && Enabled(s, a, slack) && id < |After(s, a, reclaimCount, slack).entries|
    ensures var e := After(s, a, reclaimCount, slack).entries[id]; !e.present && e.input.Some? ==> e.answers != []
  {
    OnlyAckRemoves(s, a, reclaimCount, slack, id);
    AnswersGain(s, a, reclaimCount, slack, id);
    hide After, PublishFor, PublishResponse, AnswerOk, ResponseOk, RetryOk, Landing;
    if id < |s.entries| {
      assert EntryOk(s, id);
      if a.Ack? && a.id == id {
        assert HoldOk(s, (a.c, id));
      }
    }
  }

  /** Whoever still holds what it held is in order. */
  lemma HoldGrows(s: Stream, s': Stream, k: Key)
    requires Grows(s, s') && k in s.holds && HoldOk(s, k) && k in s'.holds && s'.holds[k] == s.holds[k]
    ensures HoldOk(s', k)
  {
    assert s'.entries[k.1].input == s.entries[k.1].input;
  }

  lemma PublishingHold(s: Stream, c: Consumer, id: Id, p: Publication, k: Key)
    requires id < |s.entries| && s.entries[id].delivered > 0 && k in PublishFor(s, c, id, p).holds
    requires k in s.holds ==> PublishFor(s, c, id, p).holds[k] != s.holds[k]
    ensures HoldOk(PublishFor(s, c, id, p), k)
  {
  }

  /** The hold that a step changes. */
  lemma ChangedHold(s: Stream, a: Action, reclaimCount: nat, slack: nat, k: Key)
    requires DeliveryInv(s) && Enabled(s, a, slack) && k in After(s, a, reclaimCount, slack).holds
    requires k in s.holds ==> After(s, a, reclaimCount, slack).holds[k] != s.holds[k]
    ensures HoldOk(After(s, a, reclaimCount, slack), k)
  {
    hide CalledFor, PublishResponse, AnswerOk, ResponseOk, RetryOk, EntryOk;
    if k in s.holds {
      assert HoldOk(s, k);
    }
    if (a.Publish? || a.Expire?) && s.entries[a.id].input.Some? {
      assert HoldOk(s, (a.c, a.id));
      PublishingHold(s, a.c, a.id, Published(s, a).value, k);
    } else {
      hide PublishFor;
    }
  }

  lemma StepKeepsHold(s: Stream, a: Action, reclaimCount: nat, slack: nat, k: Key)
    requires DeliveryInv(s) && Enabled(s, a, slack) && k in After(s, a, reclaimCount, slack).holds
    ensures HoldOk(After(s, a, reclaimCount, slack), k)
  {
    hide HoldOk, EntryOk, AnswerOk, ResponseOk, RetryOk, Grows;
    var s' := After(s, a, reclaimCount, slack);
    StepGrows(s, a, reclaimCount, slack);
    hide After;
    if k in s.holds && s'.holds[k] == s.holds[k] {
      assert HoldOk(s, k);
      HoldGrows(s, s', k);
    } else {
      ChangedHold(s, a, reclaimCount, slack, k);
    }
  }

  lemma StepKeepsResponse(s: Stream, a: Action, reclaimCount: nat, slack: nat, k: nat)
    requires DeliveryInv(s) && Enabled(s, a, slack) && k < |After(s, a, reclaimCount, slack).responses|
    ensures ResponseOk(After(s, a, reclaimCount, slack), k)
  {
    StepGrows(s, a, reclaimCount, slack);
    if k < |s.responses| {
      assert ResponseOk(s, k);
      ResponseGrows(s, After(s, a, reclaimCount, slack), k);
    } else {
      PublicationLands(s, a.c, a.id, Published(s, a).value);
    }
  }

  lemma StepKeepsRetry(s: Stream, a: Action, reclaimCount: nat, slack: nat, id: Id)
    requires DeliveryInv(s) && Enabled(s, a, slack) && id < |After(s, a, reclaimCount, slack).entries|
    ensures RetryOk(After(s, a, reclaimCount, slack), id)
  {
    StepGrows(s, a, reclaimCount, slack);
    if id < |s.entries| {
      assert RetryOk(s, id);
      RetryGrows(s, After(s, a, reclaimCount, slack), id);
    } else if !a.Request? {
      PublicationLands(s, a.c, a.id, Published(s, a).value);
    }
  }

  lemma StepKeepsDelivery(s: Stream, a: Action, reclaimCount: nat, slack: nat)
    requires DeliveryInv(s) && Enabled(s, a, slack)
    ensures DeliveryInv(After(s, a, reclaimCount, slack))
  {
    hide EntryOk, HoldOk, ResponseOk, RetryOk;
    var s' := After(s, a, reclaimCount, slack);
    forall id | 0 <= id < |s'.entries| ensures EntryOk(s', id) && RetryOk(s', id) {
      StepKeepsEntry(s, a, reclaimCount, slack, id);
      StepKeepsRetry(s, a, reclaimCount, slack, id);
    }
    forall k | k in s'.holds ensures HoldOk(s', k) {
      StepKeepsHold(s, a, reclaimCount, slack, k);
    }
    forall k | 0 <= k < |s'.responses| ensures ResponseOk(s', k) {
      StepKeepsResponse(s, a, reclaimCount, slack, k);
    }
  }

  /* ---------- whole runs ---------- */

  datatype Trace = Trace(streams: seq<Stream>, actions: seq<Action>)

  predicate StepAt(t: Trace, reclaimCount: nat, slack: nat, i: nat) {
    i < |t.actions| && i + 1 < |t.streams| && Enabled(t.streams[i], t.actions[i], slack)
    && t.streams[i + 1] == After(t.streams[i], t.actions[i], reclaimCount, slack)
  }

  ghost predicate IsRun(t: Trace, reclaimCount: nat, slack: nat) {
    && |t.streams| == |t.actions| + 1 && t.streams[0] == EMPTY
    && forall i {:trigger StepAt(t, reclaimCount, slack, i)} :: 0 <= i < |t.actions| ==>
        StepAt(t, reclaimCount, slack, i)
  }

  lemma RunExtends(t: Trace, a: Action, reclaimCount: nat, slack: nat)
    requires IsRun(t, reclaimCount, slack) && Enabled(t.streams[|t.actions|], a, slack)
    ensures IsRun(Trace(t.streams + [After(t.streams[|t.actions|], a, reclaimCount, slack)], t.actions + [a]),
        reclaimCount, slack)
  {
    var t' := Trace(t.streams + [After(t.streams[|t.actions|], a, reclaimCount, slack)], t.actions + [a]);
    hide After, Enabled;
    forall i | 0 <= i < |t'.actions| ensures StepAt(t', reclaimCount, slack, i) {
      if i < |t.actions| {
        assert StepAt(t, reclaimCount, slack, i);
      }
    }
  }

  lemma {:induction false} RunKeepsDelivery(t: Trace, reclaimCount: nat, slack: nat, n: nat)
    requires IsRun(t, reclaimCount, slack) && n < |t.streams|
    ensures DeliveryInv(t.streams[n])
  {
    if n == 0 {
      EmptyDelivery();
    } else {
      RunKeepsDelivery(t, reclaimCount, slack, n - 1);
      assert StepAt(t, reclaimCount, slack, n - 1);
      StepKeepsDelivery(t.streams[n - 1], t.actions[n - 1], reclaimCount, slack);
    }
  }

  /** A pending message can be claimed by any consumer that does not hold it. */
  predicate Claimable(s: Stream, c: Consumer, id: Id, reclaimCount: nat, slack: nat) {
    Enabled(s, Peek(c, id), slack) && Enabled(After(s, Peek(c, id), reclaimCount, slack), Claim(c, id), slack)
  }

  /** At every moment of every run a well-formed message is still unread, or pending and claimable by every consumer
      that does not hold it, or its own answer, which its history calls for, stands in a stream. */
  lemma NoMessageIsLost(t: Trace, reclaimCount: nat, slack: nat, n: nat, id: Id)
    requires IsRun(t, reclaimCount, slack) && n < |t.streams|
    requires id < |t.streams[n].entries| && t.streams[n].entries[id].input.Some?
    ensures var s := t.streams[n];
            || (s.entries[id].present && s.entries[id].delivered == 0)
            || (IsPending(s, id) && forall c :: (c, id) !in s.holds ==> Claimable(s, c, id, reclaimCount, slack))
            || (|s.entries[id].answers| > 0 && forall i :: 0 <= i < |s.entries[id].answers| ==> AnswerOk(s, id, i))
  {
    RunKeepsDelivery(t, reclaimCount, slack, n);
    assert EntryOk(t.streams[n], id);
  }

  /** An entry leaves the stream only when its own answer stands in a stream. */
  lemma AckFollowsAnswer(t: Trace, reclaimCount: nat, slack: nat, n: nat, c: Consumer, id: Id)
    requires IsRun(t, reclaimCount, slack) && n < |t.actions| && t.actions[n] == Ack(c, id)
    requires id < |t.streams[n].entries| && t.streams[n].entries[id].input.Some?
    ensures var s := t.streams[n]; |s.entries[id].answers| > 0 && AnswerOk(s, id, 0)
  {
    RunKeepsDelivery(t, reclaimCount, slack, n);
    assert StepAt(t, reclaimCount, slack, n);
    assert HoldOk(t.streams[n], (c, id)) && EntryOk(t.streams[n], id);
  }

  /** Answers and what stands in the streams correspond one to one: two answers never share a place, and nothing is
      in a stream but requests and answers. */
  lemma AnswersAreNotShared(t: Trace, reclaimCount: nat, slack: nat, n: nat, id: Id, i: nat, other: Id, j: nat)
    requires IsRun(t, reclaimCount, slack) && n < |t.streams|
    requires var s := t.streams[n];
      && id < |s.entries| && other < |s.entries| && i < |s.entries[id].answers| && j < |s.entries[other].answers|
      && s.entries[id].answers[i] == s.entries[other].answers[j] && !s.entries[id].answers[i].p.Nothing?
    ensures id == other && i == j
  {
    RunKeepsDelivery(t, reclaimCount, slack, n);
    var s := t.streams[n];
    assert EntryOk(s, id) && EntryOk(s, other);
    assert AnswerOk(s, id, i) && AnswerOk(s, other, j);
  }

  lemma StreamsHoldOnlyAnswers(t: Trace, reclaimCount: nat, slack: nat, n: nat)
    requires IsRun(t, reclaimCount, slack) && n < |t.streams|
    ensures forall k :: 0 <= k < |t.streams[n].responses| ==> ResponseOk(t.streams[n], k)
    ensures forall id :: 0 <= id < |t.streams[n].entries| ==> RetryOk(t.streams[n], id)
  {
    RunKeepsDelivery(t, reclaimCount, slack, n);
  }

  /* ---------- what a consumer has run, it publishes before it acknowledges ---------- */

  /** A success or an interim answer is published as it is, on the entry's account. */
  lemma SuccessIsPublished(s: Stream, c: Consumer, id: Id, output: Output, reclaimCount: nat, slack: nat)
    requires Enabled(s, Publish(c, id), slack) && s.holds[(c, id)].result == Some(output) && output.status != Error
    ensures var s' := After(s, Publish(c, id), reclaimCount, slack);
      && s'.responses == s.responses + [Response(output, id, |s.entries[id].answers|)]
      && Holds(s', c, id, ToAck)
  {
  }

  /** Only these steps leave a consumer with nothing but the acknowledgement to do. */
  lemma BecomesToAck(s: Stream, a: Action, reclaimCount: nat, slack: nat, c: Consumer, id: Id)
    requires DeliveryInv(s) && Enabled(s, a, slack) && Holds(After(s, a, reclaimCount, slack), c, id, ToAck)
    ensures Holds(s, c, id, ToAck) || a == Publish(c, id) || a == Expire(c, id) || a == Skip(c, id)
  {
    hide PublishResponse, EntryOk, ResponseOk, RetryOk;
    if (c, id) in s.holds {
      assert HoldOk(s, (c, id));
    }
  }

  lemma {:induction false} RunGrows(t: Trace, reclaimCount: nat, slack: nat, m: nat, n: nat)
    requires IsRun(t, reclaimCount, slack) && m <= n < |t.streams|
    ensures t.streams[m].responses <= t.streams[n].responses && |t.streams[m].entries| <= |t.streams[n].entries|
    ensures forall id :: 0 <= id < |t.streams[m].entries| ==>
      t.streams[n].entries[id].input == t.streams[m].entries[id].input
    decreases n
  {
    hide Enabled, After;
    if m < n {
      RunGrows(t, reclaimCount, slack, m, n - 1);
      assert StepAt(t, reclaimCount, slack, n - 1);
      StepGrows(t.streams[n - 1], t.actions[n - 1], reclaimCount, slack);
    }
  }

  /** The step after which the consumer has held the entry, to acknowledge it, ever since. */
  lemma {:induction false} LastPublication(t: Trace, reclaimCount: nat, slack: nat, n: nat, c: Consumer, id: Id)
    returns (m: nat)
    requires IsRun(t, reclaimCount, slack) && n < |t.streams| && Holds(t.streams[n], c, id, ToAck)
    ensures m < n && t.actions[m] in {Publish(c, id), Expire(c, id), Skip(c, id)}
    ensures StepAt(t, reclaimCount, slack, m)
    ensures forall k :: m < k <= n ==> Holds(t.streams[k], c, id, ToAck)
    decreases n
  {
    hide Enabled, After, Holds, DeliveryInv;
    assert n > 0 by {
      NothingHeld(c, id);
    }
    assert StepAt(t, reclaimCount, slack, n - 1);
    RunKeepsDelivery(t, reclaimCount, slack, n - 1);
    BecomesToAck(t.streams[n - 1], t.actions[n - 1], reclaimCount, slack, c, id);
    if t.actions[n - 1] in {Publish(c, id), Expire(c, id), Skip(c, id)} {
      m := n - 1;
    } else {
      m := LastPublication(t, reclaimCount, slack, n - 1, c, id);
    }
  }

  lemma NothingHeld(c: Consumer, id: Id)
    ensures !Holds(EMPTY, c, id, ToAck)
  {
  }

  /** A consumer that acknowledges a well-formed message has published on its account; and if what it had run came to a
      success or an interim answer, that very answer stands in the engine's stream, as this entry's. */
  lemma AckFollowsOwnPublication(t: Trace, reclaimCount: nat, slack: nat, n: nat, c: Consumer, id: Id)
    returns (m: nat)
    requires IsRun(t, reclaimCount, slack) && n < |t.actions| && t.actions[n] == Ack(c, id)
    requires id < |t.streams[n].entries| && t.streams[n].entries[id].input.Some?
    ensures m < n && (t.actions[m] == Publish(c, id) || t.actions[m] == Expire(c, id))
    ensures forall k :: m < k <= n ==> Holds(t.streams[k], c, id, ToAck)
    ensures t.actions[m].Publish? ==>
      && (c, id) in t.streams[m].holds && t.streams[m].holds[(c, id)].ToPublish?
      && var result := t.streams[m].holds[(c, id)].result;
      result.Some? && result.value.status != Error ==>
        exists r :: r in t.streams[n].responses && r.output == result.value && r.owner == id
  {
    hide After;
    assert StepAt(t, reclaimCount, slack, n);
    m := LastPublication(t, reclaimCount, slack, n, c, id);
    var s := t.streams[m];
    RunGrows(t, reclaimCount, slack, m, n);
    if t.actions[m].Publish? && s.holds[(c, id)].result.Some? && s.holds[(c, id)].result.value.status != Error {
      var output := s.holds[(c, id)].result.value;
      SuccessIsPublished(s, c, id, output, reclaimCount, slack);
      RunGrows(t, reclaimCount, slack, m + 1, n);
      var r := Response(output, id, |s.entries[id].answers|);
      assert t.streams[m + 1].responses[|s.responses|] == r;
      assert t.streams[n].responses[|s.responses|] == r;
    }
  }
}
