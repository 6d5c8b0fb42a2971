/** Time hooks: activities to be woken later, in lists of fifteen seconds each, and the sorted set of the lists. */
module TimeHooks {
  import opened Options
  import opened Sums
  import opened Text

  /* ---------- slots ---------- */

  const FIDELITY_SECONDS := 15
  const SLOT_MS := 15000

  /** The list a hook goes to, for a clock in milliseconds. */
  function TimeSlot(now: int, inSeconds: int): int {
    (now + inSeconds * 1000) / SLOT_MS * SLOT_MS
  }

  /** The slot is the one multiple of fifteen seconds that is at most, and less than fifteen seconds before, the
      time asked for. */
  lemma SlotIsJustBefore(now: int, inSeconds: int, slot: int)
    ensures slot == TimeSlot(now, inSeconds)
       <==> slot % SLOT_MS == 0 && slot <= now + inSeconds * 1000 < slot + SLOT_MS
  {
    var t := now + inSeconds * 1000;
    if slot % SLOT_MS == 0 && slot <= t < slot + SLOT_MS {
      QuotientUnique(t, SLOT_MS, slot / SLOT_MS, t - slot);
    }
  }

  /* ---------- events ---------- */

  datatype Kind = Sleep | Expire | Cron

  function KindText(kind: Kind): string {
    match kind
    case Sleep => "sleep"
    case Expire => "expire"
    case Cron => "cron"
  }

  function Encode(kind: Kind, activityId: string, jobId: string): string {
    KindText(kind) + "::" + activityId + "::" + jobId
  }

  /** The job and the activity; the activity is missing when there is only one field. */
  function Decode(event: string): (string, Option<string>) {
    var parts := Split(event, "::");
    if |parts| == 1 then ("", None) else (Join(parts[2..], "::"), Some(parts[1]))
  }

  lemma KindHasNoSeparator(kind: Kind)
    ensures NoSeparator(KindText(kind))
  {
    var a := KindText(kind);
    forall j | 0 <= j < |a| ensures !At(a + ":", "::", j) {
      assert a[j] != ':' && (a + ":")[j..j + 2][0] == a[j];
    }
  }

  /** The pair survives, for any job id, exactly when the activity id neither holds the separator nor ends in
      half of one. */
  lemma EventRoundTrip(kind: Kind, activityId: string, jobId: string)
    ensures Decode(Encode(kind, activityId, jobId)) == (jobId, Some(activityId)) <==> NoSeparator(activityId)
  {
    hide Split;
    var rest := activityId + "::" + jobId;
    assert Encode(kind, activityId, jobId) == KindText(kind) + "::" + rest;
    KindHasNoSeparator(kind);
    FirstField(KindText(kind), rest);
    var parts := Split(Encode(kind, activityId, jobId), "::");
    assert parts[1] == Split(rest, "::")[0];
    if NoSeparator(activityId) {
      FirstField(activityId, jobId);
      JoinSplit(jobId, "::");
      assert parts[2..] == Split(jobId, "::");
    } else {
      var j :| 0 <= j < |activityId| && At(activityId + ":", "::", j);
      SeparatorWithin(activityId, jobId, j);
      SplitBeforeFirst(activityId, jobId, "::", j);
    }
  }

  /* ---------- the store ---------- */

  type Lists = map<int, seq<string>>

  function ListAt(lists: Lists, slot: int): seq<string> {
    if slot in lists then lists[slot] else []
  }

  predicate ConservedAt(registered: Lists, handed: Lists, lists: Lists, slot: int) {
    ListAt(registered, slot) == ListAt(handed, slot) + ListAt(lists, slot)
  }

  /** What has been registered for a slot is what was handed out, in order, and then what still waits. */
  ghost predicate Conserved(registered: Lists, handed: Lists, lists: Lists) {
    forall slot {:trigger ConservedAt(registered, handed, lists, slot)} :: ConservedAt(registered, handed, lists, slot)
  }

  /** No list that holds something is missing from the sorted set. */
  ghost predicate Listed(lists: Lists, zset: set<int>) {
    forall slot {:trigger ListAt(lists, slot)} :: ListAt(lists, slot) != [] ==> slot in zset
  }

  function Push(lists: Lists, slot: int, event: string): Lists {
    lists[slot := ListAt(lists, slot) + [event]]
  }

  function Pop(lists: Lists, slot: int): Lists {
    if ListAt(lists, slot) == [] then lists else lists[slot := ListAt(lists, slot)[1..]]
  }

  lemma RegisterConserves(registered: Lists, handed: Lists, lists: Lists, slot: int, event: string)
    requires Conserved(registered, handed, lists)
    ensures Conserved(Push(registered, slot, event), handed, Push(lists, slot, event))
  {
    forall s ensures ConservedAt(Push(registered, slot, event), handed, Push(lists, slot, event), s) {
      assert ConservedAt(registered, handed, lists, s);
    }
  }

  lemma HandingOutConserves(registered: Lists, handed: Lists, lists: Lists, slot: int)
    requires Conserved(registered, handed, lists) && ListAt(lists, slot) != []
    ensures Conserved(registered, Push(handed, slot, ListAt(lists, slot)[0]), Pop(lists, slot))
  {
    forall s ensures ConservedAt(registered, Push(handed, slot, ListAt(lists, slot)[0]), Pop(lists, slot), s) {
      assert ConservedAt(registered, handed, lists, s);
      if s == slot {
        var list := ListAt(lists, slot);
        assert ListAt(handed, slot) + list == (ListAt(handed, slot) + [list[0]]) + list[1..];
      }
    }
  }

  predicate IsDue(zset: set<int>, now: int, slot: int) {
    slot in zset && 0 <= slot <= now
  }

  /** The earliest list of those that are due. */
  ghost predicate IsFirstDue(zset: set<int>, now: int, slot: Option<int>) {
    match slot
    case None => forall s {:trigger IsDue(zset, now, s)} :: !IsDue(zset, now, s)
    case Some(first) => IsDue(zset, now, first) && forall s {:trigger IsDue(zset, now, s)} :: IsDue(zset, now, s) ==>
        first <= s
  }

  class StoreService {
    var lists: Lists
    var zset: set<int>
    ghost var registered: Lists
    ghost var handed: Lists

    /** Nothing is lost or handed out twice, and no list that holds something is forgotten. */
    ghost predicate Valid()
      reads this
    {
      Conserved(registered, handed, lists) && Listed(lists, zset)
    }

    constructor ()
      ensures Valid() && zset == {} && registered == map[] && handed == map[]
    {
      lists, zset, registered, handed := map[], {}, map[], map[];
      new;
      forall slot ensures ConservedAt(registered, handed, lists, slot) {
      }
    }

    /** RPUSH, and ZADD when the list is new or the commands go out as one transaction. */
    method RegisterTimeHook(jobId: string, activityId: string, kind: Kind, deletionTime: int, multi: bool)
      requires Valid()
      modifies this
      ensures Valid() && handed == old(handed)
      ensures registered == Push(old(registered), deletionTime, Encode(kind, activityId, jobId))
      ensures lists == Push(old(lists), deletionTime, Encode(kind, activityId, jobId))
    {
      var timeEvent := Encode(kind, activityId, jobId);
      ghost var before := lists;
      RegisterConserves(registered, handed, lists, deletionTime, timeEvent);
      lists := Push(lists, deletionTime, timeEvent);
      registered := Push(registered, deletionTime, timeEvent);
      var len := |ListAt(lists, deletionTime)|;
      if multi || len == 1 {
        zset := zset + {deletionTime};
      }
      forall slot ensures ListAt(lists, slot) != [] ==> slot in zset {
        assert ListAt(before, slot) != [] ==> slot in old(zset);
      }
    }

    /** ZRANGEBYSCORE from 0 to now, and the first of what it finds. */
    method ZRangeByScore(now: int) returns (slot: Option<int>)
      ensures IsFirstDue(zset, now, slot)
    {
      slot := None;
      var todo := zset;
      while todo != {}
        invariant todo <= zset && (slot.Some? ==> IsDue(zset, now, slot.value))
        invariant forall s {:trigger IsDue(zset, now, s)} :: IsDue(zset, now, s) && s !in todo ==>
            slot.Some? && slot.value <= s
        decreases |todo|
      {
        ghost var element := Element(todo);
        var s :| s in todo;
        todo := todo - {s};
        if 0 <= s <= now && (slot.None? || s < slot.value) {
          slot := Some(s);
        }
        assert IsDue(zset, now, s) ==> slot.Some? && slot.value <= s;
      }
    }

    method NothingDue(now: int) returns (nothing: bool)
      ensures nothing <==> IsFirstDue(zset, now, None)
    {
      var slot := ZRangeByScore(now);
      nothing := slot.None?;
    }

    /** The next event of the list given, or of the earliest list that is due. A list found empty is taken off
        the sorted set. With a list that is due, or none given, nothing is handed out before its slot. */
    method GetNextTimeJob(listKey: Option<int>, now: int)
      returns (job: Option<(int, string, Option<string>)>, ghost slot: Option<int>)
      requires Valid()
      modifies this
      ensures Valid() && registered == old(registered)
      ensures if listKey.Some? then slot == listKey else IsFirstDue(old(zset), now, slot)
      ensures job.Some? <==> slot.Some? && ListAt(old(lists), slot.value) != []
      ensures if job.Some? then
          var event := ListAt(old(lists), slot.value)[0];
          && job.value == (slot.value, Decode(event).0, Decode(event).1)
          && handed == Push(old(handed), slot.value, event) && lists == Pop(old(lists), slot.value) && zset == old(zset)
        else
          handed == old(handed) && lists == old(lists) && zset == if slot.Some? then old(zset) - {slot.value}
              else old(zset)
    {
      var key := listKey;
      if key.None? {
        key := ZRangeByScore(now);
      }
      slot := key;
      if key.None? {
        return None, slot;
      }
      var list := ListAt(lists, key.value);
      if list != [] {
        var event := list[0];
        HandingOutConserves(registered, handed, lists, key.value);
        PopStaysListed(lists, zset, key.value);
        lists := Pop(lists, key.value);
        handed := Push(handed, key.value, event);
        var (jobId, activityId) := Decode(event);
        return Some((key.value, jobId, activityId)), slot;
      }
      zset := zset - {key.value};
      job := None;
    }
  }

  lemma PopStaysListed(lists: Lists, zset: set<int>, slot: int)
    requires Listed(lists, zset)
    ensures Listed(Pop(lists, slot), zset)
  {
    forall s ensures ListAt(Pop(lists, slot), s) != [] ==> s in zset {
      assert ListAt(lists, s) != [] ==> s in zset;
    }
  }

  /** One call of the hook, for an event of a slot. */
  datatype Call = Call(slot: int, jobId: string, activityId: Option<string>)

  class TaskService {
    const store: StoreService

    constructor (store: StoreService)
      ensures this.store == store
    {
      this.store := store;
    }

    method RegisterTimeHook(jobId: string, activityId: string, kind: Kind, inSeconds: int, now: int, multi: bool)
      requires store.Valid()
      modifies store
      ensures store.Valid()
      ensures store.registered == Push(old(store.registered), TimeSlot(now, inSeconds), Encode(kind, activityId, jobId))
    {
      var awakenTimeSlot := (now + inSeconds * 1000) / (FIDELITY_SECONDS * 1000) * (FIDELITY_SECONDS * 1000);
      store.RegisterTimeHook(jobId, activityId, kind, awakenTimeSlot, multi);
    }

    /** Calls the hook for whatever is due, list after list; between two lists the source sleeps. Each call is for an
        event handed out at that moment, decoded. Nothing is called before its slot, slots come in order, and in each
        slot that is due the calls are for exactly the events registered and not handed out before, in the order of
        registration. */
    method ProcessTimeHooks(now: int) returns (calls: seq<Call>)
      requires store.Valid()
      modifies store
      ensures store.Valid() && store.registered == old(store.registered)
      ensures forall i :: 0 <= i < |calls| ==> 0 <= calls[i].slot <= now
      ensures forall i, j :: 0 <= i < j < |calls| ==> calls[i].slot <= calls[j].slot
      ensures forall slot {:trigger CallsAt(calls, slot)} :: CalledFor(old(store.handed), store.handed, calls, slot)
      ensures forall slot {:trigger CallsAt(calls, slot)} :: 0 <= slot <= now ==>
        && ListAt(store.handed, slot) == ListAt(store.registered, slot)
        && |ListAt(old(store.handed), slot)| <= |ListAt(store.registered, slot)|
        && CallsAt(calls, slot) == Decoded(ListAt(store.registered, slot)[|ListAt(old(store.handed), slot)|..])
      ensures forall slot {:trigger CallsAt(calls, slot)} :: !(0 <= slot <= now) ==> CallsAt(calls, slot) == []
    {
      hide Decode, Conserved, CallsAt, CalledFor;
      calls := [];
      var listKey: Option<int> := None;
      var idle := false;
      NothingCalled(store.handed);
      while !idle
        invariant store.Valid() && store.registered == old(store.registered)
        invariant listKey.Some? ==> IsFirstDue(store.zset, now, listKey)
        invariant idle ==> IsFirstDue(store.zset, now, None)
        invariant forall i :: 0 <= i < |calls| ==> 0 <= calls[i].slot <= now
        invariant forall i, s {:trigger calls[i], IsDue(store.zset, now, s)} ::
          0 <= i < |calls| && IsDue(store.zset, now, s) ==> calls[i].slot <= s
        invariant forall i, j :: 0 <= i < j < |calls| ==> calls[i].slot <= calls[j].slot
        invariant forall slot {:trigger CalledFor(old(store.handed), store.handed, calls, slot)} ::
          CalledFor(old(store.handed), store.handed, calls, slot)
        decreases !idle, |store.zset|, listKey.None?, if listKey.Some? then |ListAt(store.lists, listKey.value)| else 0
      {
        ghost var zset, lists, handed, before := store.zset, store.lists, store.handed, calls;
        var job;
        ghost var slot;
        job, slot := store.GetNextTimeJob(listKey, now);
        if job.Some? {
          assert IsDue(zset, now, job.value.0);
          calls := calls + [Call(job.value.0, job.value.1, job.value.2)];
          forall s ensures CalledFor(old(store.handed), store.handed, calls, s) {
            CallContinues(old(store.handed), handed, before, job.value.0, ListAt(lists, job.value.0)[0], s);
          }
          listKey := Some(job.value.0);
        } else if listKey.Some? {
          RemovedIsNotDue(zset, now, listKey.value);
          listKey := None;
        } else {
          if slot.Some? {
            RemovedIsNotDue(zset, now, slot.value);
          }
          idle := store.NothingDue(now);
        }
      }
      forall slot
        ensures CalledFor(old(store.handed), store.handed, calls, slot)
        ensures 0 <= slot <= now ==>
          && ListAt(store.handed, slot) == ListAt(store.registered, slot)
          && |ListAt(old(store.handed), slot)| <= |ListAt(store.registered, slot)|
          && CallsAt(calls, slot) == Decoded(ListAt(store.registered, slot)[|ListAt(old(store.handed), slot)|..])
        ensures !(0 <= slot <= now) ==> CallsAt(calls, slot) == []
      {
        WhatIsCalled(old(store.handed), store.handed, calls, slot);
        if 0 <= slot <= now {
          assert !IsDue(store.zset, now, slot);
          NothingWaits(store.registered, store.handed, store.lists, store.zset, slot);
        } else {
          NotCalled(calls, slot);
        }
      }
    }
  }

  /* ---------- what the hook is called for ---------- */

  /** The calls for one slot's events, in order. */
  function CallsAt(calls: seq<Call>, slot: int): seq<(string, Option<string>)> {
    if |calls| == 0 then [] else
      var last := calls[|calls| - 1];
      CallsAt(calls[..|calls| - 1], slot) + if last.slot == slot then [(last.jobId, last.activityId)] else []
  }

  function Decoded(events: seq<string>): seq<(string, Option<string>)> {
    seq(|events|, i requires 0 <= i < |events| => Decode(events[i]))
  }

  /** The calls for a slot are for exactly the events it has handed out since, in order. */
  ghost predicate CalledFor(before: Lists, handed: Lists, calls: seq<Call>, slot: int) {
    && ListAt(before, slot) <= ListAt(handed, slot)
    && CallsAt(calls, slot) == Decoded(ListAt(handed, slot)[|ListAt(before, slot)|..])
  }

  lemma NothingCalled(handed: Lists)
    ensures forall slot {:trigger CalledFor(handed, handed, [], slot)} :: CalledFor(handed, handed, [], slot)
  {
  }

  lemma WhatIsCalled(before: Lists, handed: Lists, calls: seq<Call>, slot: int)
    requires CalledFor(before, handed, calls, slot)
    ensures ListAt(before, slot) <= ListAt(handed, slot)
    ensures CallsAt(calls, slot) == Decoded(ListAt(handed, slot)[|ListAt(before, slot)|..])
  {
  }

  lemma CallContinues(before: Lists, handed: Lists, calls: seq<Call>, at: int, event: string, slot: int)
    requires CalledFor(before, handed, calls, slot)
    ensures CalledFor(before, Push(handed, at, event), calls + [Call(at, Decode(event).0, Decode(event).1)], slot)
  {
    hide Decode;
    var call := Call(at, Decode(event).0, Decode(event).1);
    assert (calls + [call])[..|calls|] == calls;
    if at == slot {
      var n, list := |ListAt(before, slot)|, ListAt(handed, slot);
      assert (list + [event])[n..] == list[n..] + [event];
      assert Decoded(list[n..] + [event]) == Decoded(list[n..]) + [Decode(event)];
    }
  }

  lemma {:induction false} NotCalled(calls: seq<Call>, slot: int)
    requires forall i :: 0 <= i < |calls| ==> calls[i].slot != slot
    ensures CallsAt(calls, slot) == []
    decreases |calls|
  {
    if |calls| > 0 {
      NotCalled(calls[..|calls| - 1], slot);
    }
  }

  /** A hook as it was registered. */
  datatype Hook = Hook(kind: Kind, activityId: string, jobId: string, slot: int)

  /** The lists that registrations build. */
  function RegisteredBy(hooks: seq<Hook>): Lists {
    if |hooks| == 0 then map[] else
      var last := hooks[|hooks| - 1];
      Push(RegisteredBy(hooks[..|hooks| - 1]), last.slot, Encode(last.kind, last.activityId, last.jobId))
  }

  /** The pairs registered for a slot, in order. */
  function PairsAt(hooks: seq<Hook>, slot: int): seq<(string, Option<string>)> {
    if |hooks| == 0 then [] else
      var last := hooks[|hooks| - 1];
      PairsAt(hooks[..|hooks| - 1], slot) + if last.slot == slot then [(last.jobId, Some(last.activityId))] else []
  }

  lemma {:induction false} RegisteredDecodes(hooks: seq<Hook>, slot: int)
    requires forall i :: 0 <= i < |hooks| ==> NoSeparator(hooks[i].activityId)
    ensures Decoded(ListAt(RegisteredBy(hooks), slot)) == PairsAt(hooks, slot)
    decreases |hooks|
  {
    hide Decode, Encode, NoSeparator;
    if |hooks| > 0 {
      var last := hooks[|hooks| - 1];
      var event := Encode(last.kind, last.activityId, last.jobId);
      RegisteredDecodes(hooks[..|hooks| - 1], slot);
      EventRoundTrip(last.kind, last.activityId, last.jobId);
      var list := ListAt(RegisteredBy(hooks[..|hooks| - 1]), slot);
      assert Decoded(list + [event]) == Decoded(list) + [Decode(event)];
    }
  }

  /** When a pass has called the hook for what was registered and not yet handed out, these calls are for exactly
      the (job, activity) pairs registered, from the first not yet handed out on. */
  lemma CallsAreTheHooksRegistered(hooks: seq<Hook>, before: Lists, calls: seq<Call>, slot: int)
    requires forall i :: 0 <= i < |hooks| ==> NoSeparator(hooks[i].activityId)
    requires var n := |ListAt(before, slot)|;
      && n <= |ListAt(RegisteredBy(hooks), slot)|
          && CallsAt(calls, slot) == Decoded(ListAt(RegisteredBy(hooks), slot)[n..])
    ensures |ListAt(before, slot)| <= |PairsAt(hooks, slot)|
    ensures CallsAt(calls, slot) == PairsAt(hooks, slot)[|ListAt(before, slot)|..]
  {
    hide NoSeparator, Decode, Encode;
    RegisteredDecodes(hooks, slot);
    var n, list := |ListAt(before, slot)|, ListAt(RegisteredBy(hooks), slot);
    assert Decoded(list[n..]) == Decoded(list)[n..];
  }

  lemma RemovedIsNotDue(zset: set<int>, now: int, slot: int)
    requires slot in zset
    ensures |zset - {slot}| < |zset|
    ensures forall s {:trigger IsDue(zset - {slot}, now, s)} :: IsDue(zset - {slot}, now, s) ==> IsDue(zset, now, s)
  {
    assert zset == (zset - {slot}) + {slot};
  }

  lemma NothingWaits(registered: Lists, handed: Lists, lists: Lists, zset: set<int>, slot: int)
    requires Conserved(registered, handed, lists) && Listed(lists, zset) && slot !in zset
    ensures ListAt(handed, slot) == ListAt(registered, slot)
  {
    assert ConservedAt(registered, handed, lists, slot) && ListAt(lists, slot) == [];
  }
}
