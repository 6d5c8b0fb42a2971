/** Hook-all work items: each names a list of job ids, to be moved one by one to a second list and put back at
    the end. */
module WorkQueues {
  import opened Options
  import opened Text

  type Lists = map<string, seq<string>>   // Redis lists; an empty list does not exist

  /** One call of the hook: its topic, its data, and the job it is for. */
  datatype Call = Call(topic: string, data: string, id: string)

  /* ---------- work item keys ---------- */

  function Part(workItemKey: string, i: nat): string {
    var parts := Split(workItemKey, "::");
    if i < |parts| then parts[i] else ""
  }

  function Topic(workItemKey: string): string {
    Part(workItemKey, 0)
  }

  function SourceKey(workItemKey: string): string {
    Part(workItemKey, 1)
  }

  function Data(workItemKey: string): string {
    var parts := Split(workItemKey, "::");
    if |parts| < 2 then "" else Join(parts[2..], "::")
  }

  /** A work item's key is read back as it was put together exactly when neither the topic nor the list's key holds,
      or ends in half of, the separator. A list key without a job key does. */
  lemma WorkItemRoundTrip(topic: string, sourceKey: string, data: string)
    ensures var key := topic + "::" + sourceKey + "::" + data;
      Topic(key) == topic && SourceKey(key) == sourceKey && Data(key) == data <==>
          NoSeparator(topic) && NoSeparator(sourceKey)
  {
    hide Split, At;
    var rest := sourceKey + "::" + data;
    var key := topic + "::" + rest;
    assert key == topic + "::" + sourceKey + "::" + data;
    if NoSeparator(topic) {
      FirstField(topic, rest);
      assert Split(key, "::")[1] == Split(rest, "::")[0];
      if NoSeparator(sourceKey) {
        FirstField(sourceKey, data);
        JoinSplit(data, "::");
        assert Split(key, "::")[2..] == Split(data, "::");
      } else {
        var j :| 0 <= j < |sourceKey| && At(sourceKey + ":", "::", j);
        SeparatorWithin(sourceKey, data, j);
        SplitBeforeFirst(sourceKey, data, "::", j);
      }
    } else {
      var j :| 0 <= j < |topic| && At(topic + ":", "::", j);
      SeparatorWithin(topic, rest, j);
      SplitBeforeFirst(topic, rest, "::", j);
    }
  }

  function ProcessedKey(sourceKey: string): string {
    sourceKey + ":processed"
  }

  /* ---------- lists ---------- */

  function ListAt(lists: Lists, key: string): seq<string> {
    if key in lists then lists[key] else []
  }

  function Put(lists: Lists, key: string, list: seq<string>): Lists {
    if list == [] then lists - {key} else lists[key := list]
  }

  ghost predicate NoneEmpty(lists: Lists) {
    forall key {:trigger key in lists} :: key in lists ==> lists[key] != []
  }

  /** The lists while `done` of one item's ids have been moved. */
  function Moved(lists: Lists, source: string, done: nat): Lists
    requires done <= |ListAt(lists, source)|
  {
    var list := ListAt(lists, source);
    Put(Put(lists, source, list[done..]), ProcessedKey(source), list[..done])
  }

  /** The processed list's place is free, and every id is a name. */
  predicate ItemOk(lists: Lists, workItemKey: string) {
    && ProcessedKey(SourceKey(workItemKey)) !in lists
    && forall i :: 0 <= i < |ListAt(lists, SourceKey(workItemKey))| ==> ListAt(lists, SourceKey(workItemKey))[i] != ""
  }

  lemma MovedAt(lists: Lists, source: string, done: nat)
    requires NoneEmpty(lists) && ProcessedKey(source) !in lists && done <= |ListAt(lists, source)|
    ensures var m, list := Moved(lists, source, done), ListAt(lists, source);
      && NoneEmpty(m) && ListAt(m, source) == list[done..] && ListAt(m, ProcessedKey(source)) == list[..done]
      && (done > 0 <==> ProcessedKey(source) in m) && (done < |list| <==> source in m)
  {
    assert ProcessedKey(source) != source;
  }

  lemma NothingMoved(lists: Lists, source: string)
    requires NoneEmpty(lists) && ProcessedKey(source) !in lists
    ensures Moved(lists, source, 0) == lists
  {
    var list := ListAt(lists, source);
    assert list[0..] == list;
    if source in lists {
      assert lists[source := list] == lists;
    }
    assert Put(lists, source, list) == lists;
  }

  /** LMOVE of the next id is one more moved. */
  lemma MovedNext(lists: Lists, source: string, done: nat)
    requires NoneEmpty(lists) && ProcessedKey(source) !in lists && done < |ListAt(lists, source)|
    ensures var m, list := Moved(lists, source, done), ListAt(lists, source);
      Put(Put(m, source, ListAt(m, source)[1..]), ProcessedKey(source),
          ListAt(m, ProcessedKey(source)) + [ListAt(m, source)[0]])
      == Moved(lists, source, done + 1)
  {
    MovedAt(lists, source, done);
    var m, list := Moved(lists, source, done), ListAt(lists, source);
    assert list[done..][1..] == list[done + 1..] && list[..done] + [list[done]] == list[..done + 1];
    assert ProcessedKey(source) != source;
  }

  /** RENAME at the end restores the list. */
  lemma RenamedBack(lists: Lists, source: string)
    requires NoneEmpty(lists) && ProcessedKey(source) !in lists && source in lists
    ensures var m := Moved(lists, source, |lists[source]|);
      ProcessedKey(source) in m && (m - {ProcessedKey(source)})[source := m[ProcessedKey(source)]] == lists
  {
    var list := lists[source];
    MovedAt(lists, source, |list|);
    assert list[..|list|] == list && ProcessedKey(source) != source;
  }

  /* ---------- the sorted set of work items ---------- */

  type Scores = map<string, nat>

  /** Redis orders members of one score by their bytes. */
  predicate AtMost(s: string, t: string) {
    s == "" || (t != "" && (s[0] < t[0] || (s[0] == t[0] && AtMost(s[1..], t[1..]))))
  }

  lemma {:induction false} AtMostIsAnOrder(s: string, t: string, u: string)
    ensures AtMost(s, t) || AtMost(t, s)
    ensures AtMost(s, t) && AtMost(t, s) ==> s == t
    ensures AtMost(s, t) && AtMost(t, u) ==> AtMost(s, u)
    decreases |s|
  {
    if s != "" && t != "" {
      AtMostIsAnOrder(s[1..], t[1..], if u == "" then "" else u[1..]);
      assert s == [s[0]] + s[1..] && t == [t[0]] + t[1..];
    }
  }

  predicate Precedes(scores: Scores, s: string, t: string) {
    s in scores && t in scores && (scores[s] < scores[t] || (scores[s] == scores[t] && s != t && AtMost(s, t)))
  }

  /** The members stand by score, and by name where scores are equal. */
  ghost predicate Ordered(items: seq<string>, scores: Scores) {
    && (forall key {:trigger key in scores} :: key in items ==> key in scores)
    && forall i, j {:trigger Precedes(scores, items[i], items[j])} :: 0 <= i < j < |items| ==>
        Precedes(scores, items[i], items[j])
  }

  /** At the first byte where the names differ the one is lower, or it is a beginning of the other. */
  predicate NameBefore(s: string, t: string) {
    s < t || exists k :: 0 <= k < |s| && k < |t| && s[..k] == t[..k] && s[k] < t[k]
  }

  /** Lower scores first, and of two names with one score the one that comes first. */
  ghost predicate InOrder(items: seq<string>, scores: Scores) {
    forall i, j {:trigger items[i], items[j]} :: 0 <= i < j < |items| ==>
      && items[i] in scores && items[j] in scores && scores[items[i]] <= scores[items[j]]
      && (scores[items[i]] == scores[items[j]] ==> NameBefore(items[i], items[j]))
  }

  lemma {:induction false} AtMostSays(s: string, t: string)
    ensures AtMost(s, t) <==> s == t || NameBefore(s, t)
    decreases |s|
  {
    if s != "" && t != "" && s[0] == t[0] {
      AtMostSays(s[1..], t[1..]);
      assert s == [s[0]] + s[1..] && t == [t[0]] + t[1..];
      if k :| 0 <= k < |s[1..]| && k < |t[1..]| && s[1..][..k] == t[1..][..k] && s[1..][k] < t[1..][k] {
        assert s[..k + 1] == [s[0]] + s[1..][..k] && t[..k + 1] == [t[0]] + t[1..][..k];
        assert s[k + 1] < t[k + 1];
      }
      if k :| 0 <= k < |s| && k < |t| && s[..k] == t[..k] && s[k] < t[k] {
        assert k > 0 && s[1..][..k - 1] == s[..k][1..] && t[1..][..k - 1] == t[..k][1..];
        assert s[1..][k - 1] < t[1..][k - 1];
      }
      if s[1..] < t[1..] {
        assert t[..|s|] == [t[0]] + t[1..][..|s| - 1];
      }
      if s < t {
        assert t[1..][..|s| - 1] == t[..|s|][1..];
      }
    } else if s != "" && t != "" {
      assert s[..0] == t[..0];
    }
  }

  lemma OrderedSays(items: seq<string>, scores: Scores)
    requires Ordered(items, scores)
    ensures InOrder(items, scores)
  {
    forall i, j | 0 <= i < j < |items|
      ensures items[i] in scores && items[j] in scores && scores[items[i]] <= scores[items[j]]
      ensures scores[items[i]] == scores[items[j]] ==> NameBefore(items[i], items[j])
    {
      assert Precedes(scores, items[i], items[j]);
      AtMostSays(items[i], items[j]);
    }
  }

  lemma OrderedIsDistinct(items: seq<string>, scores: Scores)
    requires Ordered(items, scores)
    ensures Distinct(items)
  {
    forall i, j | 0 <= i < j < |items| ensures items[i] != items[j] {
      assert Precedes(scores, items[i], items[j]);
    }
  }

  function Insert(items: seq<string>, scores: Scores, key: string): seq<string> {
    if items == [] then [key]
    else if Precedes(scores, items[0], key) then [items[0]] + Insert(items[1..], scores, key)
    else [key] + items
  }

  lemma {:induction false} InsertKeepsOrder(items: seq<string>, scores: Scores, key: string)
    requires Ordered(items, scores) && key in scores && key !in items
    ensures Ordered(Insert(items, scores, key), scores) && InOrder(Insert(items, scores, key), scores)
    ensures forall k :: k in Insert(items, scores, key) <==> k == key || k in items
    decreases |items|
  {
    if items != [] {
      var rest := items[1..];
      assert items == [items[0]] + rest;
      assert Ordered(rest, scores) by {
        forall i, j | 0 <= i < j < |rest| ensures Precedes(scores, rest[i], rest[j]) {
          assert Precedes(scores, items[i + 1], items[j + 1]);
        }
      }
      if Precedes(scores, items[0], key) {
        InsertKeepsOrder(rest, scores, key);
        var inserted := Insert(rest, scores, key);
        forall k | k in inserted ensures Precedes(scores, items[0], k) {
          if k != key {
            var j :| 0 <= j < |rest| && rest[j] == k;
            assert Precedes(scores, items[0], items[j + 1]);
          }
        }
        PrependKeepsOrder(items[0], inserted, scores);
      } else {
        forall k | k in items ensures Precedes(scores, key, k) {
          FirstPrecedes(items, scores, key, k);
        }
        PrependKeepsOrder(key, items, scores);
      }
    }
    OrderedSays(Insert(items, scores, key), scores);
  }

  lemma PrependKeepsOrder(key: string, items: seq<string>, scores: Scores)
    requires Ordered(items, scores) && key in scores && forall k :: k in items ==> Precedes(scores, key, k)
    ensures Ordered([key] + items, scores)
  {
    var all := [key] + items;
    forall i, j | 0 <= i < j < |all| ensures Precedes(scores, all[i], all[j]) {
      assert all[j] == items[j - 1] && all[j] in items;
      if i > 0 {
        assert Precedes(scores, items[i - 1], items[j - 1]);
      }
    }
  }

  /** What the first item does not precede comes before all. */
  lemma FirstPrecedes(items: seq<string>, scores: Scores, key: string, k: string)
    requires Ordered(items, scores) && key in scores && key !in items && k in items
    requires !Precedes(scores, items[0], key)
    ensures Precedes(scores, key, k)
  {
    AtMostIsAnOrder(key, items[0], k);
    var j :| 0 <= j < |items| && items[j] == k;
    if j > 0 {
      assert Precedes(scores, items[0], items[j]);
    }
  }

  /** Another member's score does not matter to the order. */
  lemma OrderOfOthers(items: seq<string>, scores: Scores, key: string, score: nat)
    requires Ordered(items, scores) && key !in items
    ensures Ordered(items, scores[key := score])
  {
    forall i, j | 0 <= i < j < |items| ensures Precedes(scores[key := score], items[i], items[j]) {
      assert Precedes(scores, items[i], items[j]);
    }
  }

  lemma {:induction false} RemovalKeepsOrder(items: seq<string>, scores: Scores, item: string)
    requires Ordered(items, scores)
    ensures Ordered(Without(items, item), scores - {item}) && InOrder(Without(items, item), scores - {item})
    ensures forall k :: k in Without(items, item) <==> k in items && k != item
    decreases |items|
  {
    if items != [] {
      var rest := items[1..];
      assert items == [items[0]] + rest;
      forall k | k in rest ensures Precedes(scores, items[0], k) {
        var j :| 0 <= j < |rest| && rest[j] == k;
        assert Precedes(scores, items[0], items[j + 1]);
      }
      assert Ordered(rest, scores) by {
        forall i, j | 0 <= i < j < |rest| ensures Precedes(scores, rest[i], rest[j]) {
          assert Precedes(scores, items[i + 1], items[j + 1]);
        }
      }
      if items[0] == item {
        forall i, j | 0 <= i < j < |rest| ensures Precedes(scores - {item}, rest[i], rest[j]) {
          assert Precedes(scores, rest[i], rest[j]) && rest[i] in rest && rest[j] in rest;
        }
      } else {
        RemovalKeepsOrder(rest, scores, item);
        PrependKeepsOrder(items[0], Without(rest, item), scores - {item});
      }
    }
    OrderedSays(Without(items, item), scores - {item});
  }

  class TaskStore {
    var lists: Lists
    var workItems: seq<string>          // the sorted set's members, lowest score first
    var scores: Scores
    var activeQueue: Option<string>     // this engine's cache

    constructor ()
      ensures lists == map[] && workItems == [] && scores == map[] && activeQueue == None
    {
      lists, workItems, scores, activeQueue := map[], [], map[], None;
    }

    /** ZADD NX of each key with the time of its turn as the score. */
    method AddTaskQueues(keys: seq<string>, times: seq<nat>)
      requires |times| == |keys| && Ordered(workItems, scores)
      modifies this`workItems, this`scores
      ensures Ordered(workItems, scores)
      ensures forall i, j {:trigger workItems[i], workItems[j]} :: 0 <= i < j < |workItems| ==>
        && workItems[i] in scores && workItems[j] in scores && scores[workItems[i]] <= scores[workItems[j]]
        && (scores[workItems[i]] == scores[workItems[j]] ==> NameBefore(workItems[i], workItems[j]))
      ensures forall key :: key in workItems <==> key in old(workItems) || key in keys
      ensures forall key :: key in old(workItems) && key in old(scores) ==>
          key in scores && scores[key] == old(scores)[key]
      ensures forall i :: 0 <= i < |keys| && keys[i] !in old(workItems) && keys[i] !in keys[..i] ==>
        keys[i] in scores && scores[keys[i]] == times[i]
    {
      var i := 0;
      while i < |keys|
        invariant 0 <= i <= |keys| && Ordered(workItems, scores)
        invariant forall key :: key in workItems <==> key in old(workItems) || key in keys[..i]
        invariant forall key :: key in old(workItems) && key in old(scores) ==>
            key in scores && scores[key] == old(scores)[key]
        invariant forall j :: 0 <= j < i && keys[j] !in old(workItems) && keys[j] !in keys[..j] ==>
          keys[j] in scores && scores[keys[j]] == times[j]
      {
        var key := keys[i];
        if key !in workItems {
          OrderOfOthers(workItems, scores, key, times[i]);
          scores := scores[key := times[i]];
          InsertKeepsOrder(workItems, scores, key);
          workItems := Insert(workItems, scores, key);
        }
        i := i + 1;
        assert keys[..i] == keys[..i - 1] + [key];
      }
      assert keys[..i] == keys;
      OrderedSays(workItems, scores);
    }

    method GetActiveTaskQueue() returns (workItemKey: Option<string>)
      modifies this`activeQueue
      ensures workItemKey == activeQueue
      ensures Ordered(workItems, scores) && old(activeQueue).None? && workItems != [] ==>
        && workItemKey.Some? && workItemKey.value in workItems && workItemKey.value in scores
        && forall key :: key in workItems ==> key in scores && scores[workItemKey.value] <= scores[key]
      ensures activeQueue == if old(activeQueue).Some? then old(activeQueue) else if workItems == [] then None
          else Some(workItems[0])
    {
      if Ordered(workItems, scores) {
        OrderedSays(workItems, scores);
      }
      if activeQueue.None? && workItems != [] {
        activeQueue := Some(workItems[0]);
      }
      workItemKey := activeQueue;
    }

    /** LMOVE from the left end of one list to the right end of the other. */
    method ProcessTaskQueue(sourceKey: string, destinationKey: string) returns (id: Option<string>)
      requires sourceKey != destinationKey
      modifies this`lists
      ensures id == if ListAt(old(lists), sourceKey) == [] then None else Some(ListAt(old(lists), sourceKey)[0])
      ensures lists == if id.None? then old(lists) else
        Put(Put(old(lists), sourceKey, ListAt(old(lists), sourceKey)[1..]), destinationKey,
            ListAt(old(lists), destinationKey) + [id.value])
    {
      var list := ListAt(lists, sourceKey);
      if list == [] {
        return None;
      }
      lists := Put(Put(lists, sourceKey, list[1..]), destinationKey, ListAt(lists, destinationKey) + [list[0]]);
      id := Some(list[0]);
    }

    /** ZREM, RENAME if the item was there, and the cache emptied. False when RENAME finds no list. */
    method DeleteProcessedTaskQueue(workItemKey: string, key: string, processedKey: string) returns (ok: bool)
      requires Ordered(workItems, scores)
      modifies this
      ensures workItems == Without(old(workItems), workItemKey) && scores == old(scores) - {workItemKey}
      ensures Ordered(workItems, scores)
      ensures forall i, j {:trigger workItems[i], workItems[j]} :: 0 <= i < j < |workItems| ==>
        && workItems[i] in scores && workItems[j] in scores && scores[workItems[i]] <= scores[workItems[j]]
        && (scores[workItems[i]] == scores[workItems[j]] ==> NameBefore(workItems[i], workItems[j]))
      ensures ok <==> workItemKey !in old(workItems) || processedKey in old(lists)
      ensures lists == if ok && workItemKey in old(workItems) then
                         (old(lists) - {processedKey})[key := old(lists)[processedKey]] else old(lists)
      ensures activeQueue == if ok then None else old(activeQueue)
    {
      var didRemove := workItemKey in workItems;
      RemovalKeepsOrder(workItems, scores, workItemKey);
      workItems, scores := Without(workItems, workItemKey), scores - {workItemKey};
      if didRemove {
        if processedKey !in lists {
          return false;
        }
        lists := (lists - {processedKey})[key := lists[processedKey]];
      }
      activeQueue := None;
      ok := true;
    }
  }

  predicate Distinct(items: seq<string>) {
    forall i, j {:trigger items[i], items[j]} :: 0 <= i < j < |items| ==> items[i] != items[j]
  }

  function Without(items: seq<string>, item: string): seq<string> {
    if items == [] then [] else if items[0] == item then items[1..] else [items[0]] + Without(items[1..], item)
  }

  /* ---------- the drain ---------- */

  /** The hook's calls for one item: one for each id of its list, in order. */
  function ItemCalls(lists: Lists, workItemKey: string): (calls: seq<Call>)
    ensures |calls| == |ListAt(lists, SourceKey(workItemKey))|
  {
    var list := ListAt(lists, SourceKey(workItemKey));
    seq(|list|, i requires 0 <= i < |list| => Call(Topic(workItemKey), Data(workItemKey), list[i]))
  }

  function AllCalls(lists: Lists, items: seq<string>): seq<Call> {
    if items == [] then [] else AllCalls(lists, items[..|items| - 1]) + ItemCalls(lists, items[|items| - 1])
  }

  /** How many calls the first `n` items make. */
  function Offset(lists: Lists, items: seq<string>, n: nat): nat
    requires n <= |items|
  {
    if n == 0 then 0 else Offset(lists, items, n - 1) + |ListAt(lists, SourceKey(items[n - 1]))|
  }

  lemma {:induction false} OffsetOfPart(lists: Lists, items: seq<string>, m: nat, n: nat)
    requires n <= m <= |items|
    ensures Offset(lists, items[..m], n) == Offset(lists, items, n)
    decreases n
  {
    if n > 0 {
      OffsetOfPart(lists, items, m, n - 1);
    }
  }

  /** The calls item by item, and for each item one with its topic, its data and an id of its list, in the list's
      order. */
  lemma {:induction false} CallsInOrder(lists: Lists, items: seq<string>, i: nat, j: nat)
    requires i < |items| && j < |ListAt(lists, SourceKey(items[i]))|
    ensures |AllCalls(lists, items)| == Offset(lists, items, |items|) > Offset(lists, items, i) + j
    ensures AllCalls(lists, items)[Offset(lists, items, i) + j]
         == Call(Topic(items[i]), Data(items[i]), ListAt(lists, SourceKey(items[i]))[j])
    decreases |items|
  {
    hide Topic, Data, SourceKey, ListAt;
    var n := |items| - 1;
    CallsCount(lists, items[..n]);
    OffsetOfPart(lists, items, n, n);
    if i < n {
      OffsetOfPart(lists, items, n, i);
      CallsInOrder(lists, items[..n], i, j);
    }
  }

  lemma {:induction false} CallsCount(lists: Lists, items: seq<string>)
    ensures |AllCalls(lists, items)| == Offset(lists, items, |items|)
    decreases |items|
  {
    hide SourceKey, ListAt;
    if items != [] {
      CallsCount(lists, items[..|items| - 1]);
      OffsetOfPart(lists, items, |items| - 1, |items| - 1);
    }
  }

  /** The first item whose list is empty, or the number of items. */
  function FirstEmpty(lists: Lists, items: seq<string>): (k: nat)
    ensures k <= |items| && forall i :: 0 <= i < k ==> ListAt(lists, SourceKey(items[i])) != []
    ensures k < |items| ==> ListAt(lists, SourceKey(items[k])) == []
  {
    if items == [] then 0
    else if ListAt(lists, SourceKey(items[0])) == [] then 0
    else 1 + FirstEmpty(lists, items[1..])
  }

  class TaskService {
    const store: TaskStore

    constructor (store: TaskStore)
      ensures this.store == store
    {
      this.store := store;
    }

    /** One turn: moves one id and calls the hook for it, or finishes the item. It reschedules itself unless there
        is nothing to do or finishing fails. */
    method ProcessWebHooks() returns (again: bool, call: Option<Call>)
      requires Ordered(store.workItems, store.scores)
      modifies store
      ensures Ordered(store.workItems, store.scores)
      ensures var key := if old(store.activeQueue).Some? then old(store.activeQueue)
                         else if old(store.workItems) == [] then None else Some(old(store.workItems)[0]);
        if key.None? then
          !again && call.None? && store.lists == old(store.lists) && store.workItems == [] && store.activeQueue.None?
        else
          var source, list := SourceKey(key.value), ListAt(old(store.lists), SourceKey(key.value));
          var moved := if list == [] then old(store.lists) else
            Put(Put(old(store.lists), source, list[1..]), ProcessedKey(source),
                ListAt(old(store.lists), ProcessedKey(source)) + [list[0]]);
          if list != [] && list[0] != "" then
            && again && call == Some(Call(Topic(key.value), Data(key.value), list[0])) && store.activeQueue == key
            && store.workItems == old(store.workItems) && store.lists == moved
          else
            && call.None? && store.workItems == Without(old(store.workItems), key.value)
            && (again <==> key.value !in old(store.workItems) || ProcessedKey(source) in moved)
            && store.activeQueue == (if again then None else key)
            && store.lists == if again && key.value in old(store.workItems)
                              then (moved - {ProcessedKey(source)})[source := moved[ProcessedKey(source)]] else moved
    {
      again, call := false, None;
      var workItemKey := store.GetActiveTaskQueue();
      if workItemKey.Some? {
        var key := workItemKey.value;
        var sourceKey := SourceKey(key);
        var destinationKey := ProcessedKey(sourceKey);
        assert |destinationKey| != |sourceKey|;
        var jobId := store.ProcessTaskQueue(sourceKey, destinationKey);
        if jobId.Some? && jobId.value != "" {
          call := Some(Call(Topic(key), Data(key), jobId.value));
          again := true;
        } else {
          again := store.DeleteProcessedTaskQueue(key, sourceKey, destinationKey);
        }
      }
    }

    /** All turns of one engine. Each work item up to the first one with an empty list has the hook called once for each
        of its ids, in order; every list is in the end what it was, and the items done are gone. */
    method Drain() returns (calls: seq<Call>)
      requires Ordered(store.workItems, store.scores) && NoneEmpty(store.lists) && store.activeQueue.None?
      requires forall i :: 0 <= i < |store.workItems| ==> ItemOk(store.lists, store.workItems[i])
      modifies store
      ensures store.lists == old(store.lists)
      ensures var items, k := old(store.workItems), FirstEmpty(old(store.lists), old(store.workItems));
        && calls == AllCalls(old(store.lists), items[..k])
        && (k == |items| ==> store.workItems == [] && store.activeQueue.None?)
        && (k < |items| ==> store.workItems == items[k + 1..] && store.activeQueue == Some(items[k]))
    {
      hide ItemCalls, Put, Moved, Without, FirstEmpty, Progress, AllCalls, ListAt, Ordered;
      ghost var items, lists := store.workItems, store.lists;
      ghost var n, done := 0, 0;
      calls := [];
      var again := true;
      OrderedIsDistinct(items, store.scores);
      StartDrain(lists, items);
      while again
        invariant Ordered(store.workItems, store.scores)
        invariant again ==> Midway(lists, items, n, done, store.lists, store.workItems, store.activeQueue, calls)
        invariant !again ==> Drained(lists, items, store.lists, store.workItems, store.activeQueue, calls)
        decreases again, |items| - n, if n < |items| then |ListAt(lists, SourceKey(items[n]))| - done else 0
      {
        ghost var list := if n < |items| then ListAt(lists, SourceKey(items[n])) else [];
        if n == |items| {
          EndDrain(lists, items);
        } else {
          TurnStart(lists, items, n, done, store.lists, store.workItems, store.activeQueue, calls);
          if done < |list| {
            CallTurn(lists, items, n, done);
          } else if list != [] {
            FinishTurn(lists, items, n);
          } else {
            StopTurn(lists, items, n);
          }
        }
        var call;
        again, call := ProcessWebHooks();
        if call.Some? {
          calls := calls + [call.value];
          done := done + 1;
        } else if again {
          n, done := n + 1, 0;
        }
      }
    }
  }

  /** `n` items are finished and `done` ids of the next one have been moved. */
  ghost predicate Midway(lists: Lists, items: seq<string>, n: nat, done: nat,
                         lists': Lists, items': seq<string>, active: Option<string>, calls: seq<Call>) {
    && n <= |items| && items' == items[n..] && n <= FirstEmpty(lists, items)
    && (active.None? ==> lists' == lists && done == 0)
    && (active.Some? ==>
          n < |items| && active.value == items[n] && done <= |ListAt(lists, SourceKey(items[n]))|
          && lists' == Moved(lists, SourceKey(items[n]), done))
    && calls == Progress(lists, items, n, done)
  }

  ghost function Progress(lists: Lists, items: seq<string>, n: nat, done: nat): seq<Call>
    requires n <= |items|
  {
    AllCalls(lists, items[..n]) + (if n < |items|
        && done <= |ItemCalls(lists, items[n])| then ItemCalls(lists, items[n])[..done] else [])
  }

  ghost predicate AllOk(lists: Lists, items: seq<string>) {
    NoneEmpty(lists) && Distinct(items) && forall i {:trigger items[i]} :: 0 <= i < |items| ==> ItemOk(lists, items[i])
  }

  lemma StartDrain(lists: Lists, items: seq<string>)
    ensures Midway(lists, items, 0, 0, lists, items, None, [])
  {
    assert items[0..] == items && items[..0] == [];
  }

  lemma EndDrain(lists: Lists, items: seq<string>)
    ensures FirstEmpty(lists, items) >= |items| ==>
        Progress(lists, items, |items|, 0) == AllCalls(lists, items[..FirstEmpty(lists, items)])
  {
  }

  /** An item's turn begins with its list and the processed one dividing its ids. */
  lemma TurnStart(lists: Lists, items: seq<string>, n: nat, done: nat, lists': Lists, items': seq<string>,
      active: Option<string>, calls: seq<Call>)
    requires AllOk(lists, items) && Midway(lists, items, n, done, lists', items', active, calls) && n < |items|
    ensures var source := SourceKey(items[n]);
      && done <= |ListAt(lists, source)| && lists' == Moved(lists, source, done)
          && ListAt(lists', source) == ListAt(lists, source)[done..]
      && (forall i :: 0 <= i < |ListAt(lists, source)| ==> ListAt(lists, source)[i] != "")
      && items' != [] && items'[0] == items[n] && items'[0] in items'
  {
    assert ItemOk(lists, items[n]);
    NothingMoved(lists, SourceKey(items[n]));
    MovedAt(lists, SourceKey(items[n]), done);
  }

  lemma CallTurn(lists: Lists, items: seq<string>, n: nat, done: nat)
    requires AllOk(lists, items) && n < |items| && done < |ListAt(lists, SourceKey(items[n]))|
    ensures var source, list := SourceKey(items[n]), ListAt(lists, SourceKey(items[n]));
      var m := Moved(lists, source, done);
      && Put(Put(m, source, list[done..][1..]), ProcessedKey(source),
          ListAt(m, ProcessedKey(source)) + [list[done..][0]])
         == Moved(lists, source, done + 1)
      && Progress(lists, items, n, done + 1) == Progress(lists, items, n, done)
          + [Call(Topic(items[n]), Data(items[n]), list[done])]
  {
    assert ItemOk(lists, items[n]);
    MovedNext(lists, SourceKey(items[n]), done);
    MovedAt(lists, SourceKey(items[n]), done);
    var calls := ItemCalls(lists, items[n]);
    assert calls[..done + 1] == calls[..done] + [calls[done]];
  }

  lemma WithoutFirst(items: seq<string>, n: nat)
    requires n < |items|
    ensures Without(items[n..], items[n]) == items[n + 1..]
  {
  }

  lemma ProgressOverItem(lists: Lists, items: seq<string>, n: nat)
    requires n < |items|
    ensures Progress(lists, items, n + 1, 0) == Progress(lists, items, n, |ListAt(lists, SourceKey(items[n]))|)
  {
    assert items[..n + 1][..n] == items[..n];
    var calls := ItemCalls(lists, items[n]);
    assert calls[..|calls|] == calls;
  }

  lemma FinishTurn(lists: Lists, items: seq<string>, n: nat)
    requires AllOk(lists, items) && n < |items| && n <= FirstEmpty(lists, items)
    requires ListAt(lists, SourceKey(items[n])) != []
    ensures var source, list := SourceKey(items[n]), ListAt(lists, SourceKey(items[n]));
      var m := Moved(lists, source, |list|);
      && list[|list|..] == [] && ProcessedKey(source) in m
      && (m - {ProcessedKey(source)})[source := m[ProcessedKey(source)]] == lists
      && Without(items[n..], items[n]) == items[n + 1..] && n + 1 <= FirstEmpty(lists, items)
      && Progress(lists, items, n + 1, 0) == Progress(lists, items, n, |list|)
  {
    assert ItemOk(lists, items[n]);
    ProgressOverItem(lists, items, n);
    WithoutFirst(items, n);
    hide Progress, Moved, Without, SourceKey;
    RenamedBack(lists, SourceKey(items[n]));
  }

  lemma StopTurn(lists: Lists, items: seq<string>, n: nat)
    requires AllOk(lists, items) && n < |items| && ListAt(lists, SourceKey(items[n])) == []
        && n <= FirstEmpty(lists, items)
    ensures var source := SourceKey(items[n]);
      && Moved(lists, source, 0) == lists && ProcessedKey(source) !in lists && FirstEmpty(lists, items) == n
      && Without(items[n..], items[n]) == items[n + 1..] && Progress(lists, items, n, 0) == AllCalls(lists, items[..n])
  {
    assert ItemOk(lists, items[n]);
    NothingMoved(lists, SourceKey(items[n]));
    WithoutFirst(items, n);
  }

  ghost predicate Drained(lists: Lists, items: seq<string>, lists': Lists, items': seq<string>, active: Option<string>,
      calls: seq<Call>)
  {
    var k := FirstEmpty(lists, items);
    && lists' == lists && calls == AllCalls(lists, items[..k])
    && (k == |items| ==> items' == [] && active.None?)
    && (k < |items| ==> items' == items[k + 1..] && active == Some(items[k]))
  }
}
