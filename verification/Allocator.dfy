/** Which symbol stands for which path: ranges reserved in the store, filled by each deployment. */
module Allocator {
  import opened Options
  import opened Symbols

  type Path = string
  type Target = string
  type Table = map<Path, string>

  const SLOTS := 26          // kept for metadata at the start of every range
  const RANGE_SIZE := 286

  datatype Kind = JOB | ACTIVITY

  function MetadataKeys(kind: Kind): seq<string> {
    match kind
    case JOB => ["ngn", "tpc", "pj", "pd", "pa", "key", "app", "vrs", "jid", "aid", "ts", "jc", "ju", "js", "err",
        "trc"]
    case ACTIVITY => ["aid", "dad", "as", "atp", "stp", "ac", "au", "err", "l1s", "l2s"]
  }

  function MetadataPath(kind: Kind, target: Target, key: string): Path {
    match kind
    case JOB => "metadata/" + key
    case ACTIVITY => target + "/output/metadata/" + key
  }

  /** The ranges' lower ends, the next free index, and each target's table. */
  datatype Store = Store(cursor: nat, lowers: map<Target, nat>, tables: map<Target, Table>)

  const EMPTY := Store(0, map[], map[])

  function TableOf(s: Store, target: Target): Table {
    if target in s.tables then s.tables[target] else map[]
  }

  /** The metadata paths for `keys`, numbered from `lower`; None when the numbers run out. */
  function Seeds(kind: Kind, target: Target, lower: nat, keys: seq<string>): Option<Table> {
    if keys == [] then Some(map[]) else
      var n := |keys| - 1;
      var rest := Seeds(kind, target, lower, keys[..n]);
      var symbol := GetSymKey(lower + n);
      if rest.None? || symbol.None? then None
      else Some(rest.value[MetadataPath(kind, target, keys[n]) := symbol.value])
  }

  /** Symbols for the paths that have none: `start` is the next index, `added` what was numbered so far. */
  function NewSymbols(paths: seq<Path>, start: nat, max: int, existing: Table, added: Table): Option<Table> {
    if paths == [] then Some(added)
    else if paths[0] in existing || paths[0] in added then NewSymbols(paths[1..], start, max, existing, added)
    else if start > max then None
    else match GetSymKey(start)
      case None => None
      case Some(symbol) => NewSymbols(paths[1..], start + 1, max, existing, added[paths[0] := symbol])
  }

  datatype Item = Item(target: Target, kind: Kind, paths: seq<Path>)

  datatype Reservation = Reservation(start: nat, max: int, existing: Table)

  /** The first reservation of a target: it claims that there are no symbols yet, although it has just seeded some. */
  function ReserveFirst(s: Store, target: Target, seeds: Option<Table>): (Store, Option<Reservation>) {
    var s1 := s.(cursor := s.cursor + RANGE_SIZE, lowers := s.lowers[target := s.cursor]);
    match seeds
    case None => (s1, None)
    case Some(t) =>
      (s1.(tables := s.tables[target := TableOf(s, target) + t]),
       Some(Reservation(s.cursor + SLOTS, s.cursor + RANGE_SIZE - 1, map[])))
  }

  /** Later reservations go on after as many symbols as the table holds, the metadata's own slots apart. */
  function Reserve(s: Store, target: Target, kind: Kind): (Store, Option<Reservation>) {
    if target !in s.lowers then
      ReserveFirst(s, target, Seeds(kind, target, s.cursor, MetadataKeys(kind)))
    else
      var lower, table := s.lowers[target], TableOf(s, target);
      (s, Some(Reservation(lower + SLOTS + |table|, lower + RANGE_SIZE - 1, table)))
  }

  function Add(s: Store, target: Target, added: Table): Store {
    if |added| == 0 then s else s.(tables := s.tables[target := TableOf(s, target) + added])
  }

  /** Binds the paths within what was reserved; false when it throws. */
  function Bind(s: Store, reservation: Option<Reservation>, target: Target, paths: seq<Path>): (Store, bool) {
    match reservation
    case None => (s, false)
    case Some(r) =>
      match NewSymbols(paths, r.start, r.max, r.existing, map[])
      case None => (s, false)
      case Some(added) => (Add(s, target, added), true)
  }

  /** One target's part of a deployment. */
  function Deploy(s: Store, item: Item): (Store, bool) {
    var (s1, reservation) := Reserve(s, item.target, item.kind);
    Bind(s1, reservation, item.target, item.paths)
  }

  /* ---------- what the tables keep ---------- */

  predicate InRange(symbol: string, lo: nat, hi: int) {
    IsSymKey(symbol) && lo <= SymKeyIndex(symbol) < hi
  }

  ghost predicate Within(t: Table, lo: nat, hi: int) {
    forall p {:trigger t[p]} :: p in t ==> InRange(t[p], lo, hi)
  }

  predicate Same(t: Table, p: Path, q: Path) {
    p in t && q in t && t[p] == t[q]
  }

  ghost predicate Injective(t: Table) {
    forall p, q {:trigger Same(t, p, q)} :: Same(t, p, q) ==> p == q
  }

  function Min(a: int, b: int): int {
    if a <= b then a else b
  }

  /** Every symbol lies below the index from which the next deployment will count on. */
  ghost predicate TableOk(t: Table, lower: nat) {
    Injective(t) && Within(t, lower, Min(lower + SLOTS + |t|, lower + RANGE_SIZE))
  }

  ghost predicate RangeOk(s: Store, t: Target)
    requires t in s.lowers
  {
    s.lowers[t] + RANGE_SIZE <= s.cursor && TableOk(TableOf(s, t), s.lowers[t])
  }

  ghost predicate Apart(s: Store, t: Target, u: Target)
    requires t in s.lowers && u in s.lowers
  {
    s.lowers[t] + RANGE_SIZE <= s.lowers[u] || s.lowers[u] + RANGE_SIZE <= s.lowers[t]
  }

  ghost predicate Inv(s: Store) {
    && s.tables.Keys <= s.lowers.Keys
    && (forall t {:trigger RangeOk(s, t)} :: t in s.lowers ==> RangeOk(s, t))
    && (forall t, u {:trigger Apart(s, t, u)} :: t in s.lowers && u in s.lowers && t != u ==> Apart(s, t, u))
  }

  /** A larger table with the same symbols for what it had. */
  ghost predicate Contains(t: Table, part: Table) {
    forall p {:trigger p in part} {:trigger p in t} :: p in part ==> p in t && t[p] == part[p]
  }

  ghost predicate Kept(s: Store, s': Store, t: Target)
    requires t in s.lowers
  {
    t in s'.lowers && s'.lowers[t] == s.lowers[t] && Contains(TableOf(s', t), TableOf(s, t))
  }

  /** Nothing that had a symbol gets another one. */
  ghost predicate Extends(s: Store, s': Store) {
    forall t {:trigger Kept(s, s', t)} :: t in s.lowers ==> Kept(s, s', t)
  }

  lemma WithinWidens(t: Table, lo: nat, hi: int, lo': nat, hi': int)
    requires Within(t, lo, hi) && lo' <= lo && hi <= hi'
    ensures Within(t, lo', hi')
  {
  }

  /** A symbol numbered past all the others keeps a table injective. */
  lemma PutNext(t: Table, lo: nat, hi: nat, p: Path)
    requires Injective(t) && Within(t, lo, hi) && lo <= hi && GetSymKey(hi).Some?
    ensures var t' := t[p := GetSymKey(hi).value];
            Injective(t') && Within(t', lo, hi + 1)
  {
    SymKeyRoundTrip(hi);
    var t' := t[p := GetSymKey(hi).value];
    forall q | q in t' ensures InRange(t'[q], if q == p then hi else lo, if q == p then hi + 1 else hi) {
      assert q != p ==> InRange(t[q], lo, hi);
    }
    forall q, r | Same(t', q, r) ensures q == r {
      assert InRange(t'[q], if q == p then hi else lo, if q == p then hi + 1 else hi);
      assert InRange(t'[r], if r == p then hi else lo, if r == p then hi + 1 else hi);
      assert q == p == r || Same(t, q, r);
    }
  }

  /** Two tables over neighbouring indices, or over the same paths as the later one, merge into an injective one. */
  lemma Merge(t: Table, u: Table, lo: nat, mid: nat, hi: int)
    requires Injective(t) && Injective(u) && Within(t, lo, mid) && Within(u, mid, hi) && lo <= mid <= hi
    ensures Injective(t + u) && Within(t + u, lo, hi)
  {
    var m := t + u;
    forall p | p in m ensures InRange(m[p], lo, hi) {
      assert p in u ==> InRange(u[p], mid, hi);
      assert p !in u ==> InRange(t[p], lo, mid);
    }
    forall p, q | Same(m, p, q) ensures p == q {
      assert InRange(m[p], if p in u then mid else lo, if p in u then hi else mid);
      assert InRange(m[q], if q in u then mid else lo, if q in u then hi else mid);
      assert Same(t, p, q) || Same(u, p, q);
    }
  }

  lemma EmptyTable(lower: nat)
    ensures Injective(map[]) && Within(map[], lower, lower) && TableOk(map[], lower)
  {
  }

  lemma {:induction false} SeedsAre(kind: Kind, target: Target, lower: nat, keys: seq<string>)
    requires Seeds(kind, target, lower, keys).Some?
    ensures var t := Seeds(kind, target, lower, keys).value; Injective(t) && Within(t, lower, lower + |keys|)
  {
    hide GetSymKey, Injective, Within;
    if keys == [] {
      EmptyTable(lower);
    } else {
      var n := |keys| - 1;
      var rest := Seeds(kind, target, lower, keys[..n]).value;
      var path := MetadataPath(kind, target, keys[n]);
      SeedsAre(kind, target, lower, keys[..n]);
      PutNext(rest, lower, lower + n, path);
    }
  }

  /** Where the metadata `key` of a target is kept: a job's under `metadata/`, an activity's under its own id. */
  predicate IsMetadataPath(kind: Kind, target: Target, key: string, p: Path) {
    p == if kind == JOB then "metadata/" + key else target + "/output/metadata/" + key
  }

  predicate Unlike(keys: seq<string>) {
    forall i, j {:trigger keys[i], keys[j]} :: 0 <= i < j < |keys| ==> keys[i] != keys[j]
  }

  lemma KeysAreUnlike(kind: Kind)
    ensures Unlike(MetadataKeys(kind))
  {
  }

  lemma SomeKeys(kind: Kind)
    ensures 0 < |MetadataKeys(kind)| <= SLOTS
  {
  }

  /** Each key's path stands in the table under its own number. */
  ghost predicate Numbered(kind: Kind, target: Target, lower: nat, keys: seq<string>, t: Table) {
    forall i, p {:trigger IsMetadataPath(kind, target, keys[i], p)} ::
      0 <= i < |keys| && IsMetadataPath(kind, target, keys[i], p) ==> p in t && GetSymKey(lower + i) == Some(t[p])
  }

  /** So it is with the seeds, and nothing else stands there. */
  ghost predicate Seeded(kind: Kind, target: Target, lower: nat, keys: seq<string>, t: Table) {
    && Numbered(kind, target, lower, keys, t)
    && (forall p {:trigger p in t} :: p in t ==>
          exists i :: 0 <= i < |keys| && IsMetadataPath(kind, target, keys[i], p))
  }

  lemma NumberedInLarger(kind: Kind, target: Target, lower: nat, keys: seq<string>, before: Table, seeds: Table)
    requires Seeded(kind, target, lower, keys, seeds)
    ensures Numbered(kind, target, lower, keys, before + seeds)
  {
  }

  lemma OneKeyOnePath(kind: Kind, target: Target, a: string, b: string, p: Path)
    requires IsMetadataPath(kind, target, a, p) && IsMetadataPath(kind, target, b, p)
    ensures a == b
  {
    var prefix := if kind == JOB then "metadata/" else target + "/output/metadata/";
    assert p == prefix + a == prefix + b;
    assert a == p[|prefix|..] == b;
  }

  lemma {:induction false} SeedsName(kind: Kind, target: Target, lower: nat, keys: seq<string>)
    requires Seeds(kind, target, lower, keys).Some? && Unlike(keys)
    ensures Seeded(kind, target, lower, keys, Seeds(kind, target, lower, keys).value)
    decreases |keys|
  {
    hide GetSymKey;
    if keys != [] {
      var n := |keys| - 1;
      var before := keys[..n];
      SeedsName(kind, target, lower, before);
      SeedNext(kind, target, lower, keys, Seeds(kind, target, lower, before).value, GetSymKey(lower + n).value);
    }
  }

  /** Seeding throws exactly when the numbers for the keys run out. */
  lemma {:induction false} SeedsFailExactly(kind: Kind, target: Target, lower: nat, keys: seq<string>)
    ensures Seeds(kind, target, lower, keys).None? <==> keys != [] && lower + |keys| > KEY_LIMIT
    decreases |keys|
  {
    if keys != [] {
      SeedsFailExactly(kind, target, lower, keys[..|keys| - 1]);
    }
  }

  lemma SeedNext(kind: Kind, target: Target, lower: nat, keys: seq<string>, t: Table, symbol: string)
    requires keys != [] && Unlike(keys) && Seeded(kind, target, lower, keys[..|keys| - 1], t)
    requires GetSymKey(lower + |keys| - 1) == Some(symbol)
    ensures Seeded(kind, target, lower, keys, t[MetadataPath(kind, target, keys[|keys| - 1]) := symbol])
  {
    hide GetSymKey;
    var n := |keys| - 1;
    var before, path := keys[..n], MetadataPath(kind, target, keys[n]);
    var t' := t[path := symbol];
    assert IsMetadataPath(kind, target, keys[n], path);
    forall i, p | 0 <= i < |keys| && IsMetadataPath(kind, target, keys[i], p)
      ensures p in t' && GetSymKey(lower + i) == Some(t'[p])
    {
      if i < n {
        assert keys[i] == before[i] && IsMetadataPath(kind, target, before[i], p);
        if p == path {
          OneKeyOnePath(kind, target, keys[i], keys[n], p);
        }
      }
    }
    forall p | p in t'
      ensures exists i :: 0 <= i < |keys| && IsMetadataPath(kind, target, keys[i], p)
    {
      if p != path {
        var i :| 0 <= i < |before| && IsMetadataPath(kind, target, before[i], p);
        assert IsMetadataPath(kind, target, keys[i], p);
      }
    }
  }

  /** Every path has a symbol, and nothing else got a new one. */
  ghost predicate Names(paths: seq<Path>, existing: Table, added: Table, t: Table) {
    && (forall p {:trigger p in paths} :: p in paths ==> p in t || p in existing)
    && (forall p {:trigger p in t} :: p in t ==> p in added || p in paths)
  }

  lemma NamesFirst(paths: seq<Path>, existing: Table, added: Table, t: Table)
    requires paths != [] && (paths[0] in existing || paths[0] in added) && Contains(t, added)
    requires Names(paths[1..], existing, added, t)
    ensures Names(paths, existing, added, t)
  {
    SplitFirst(paths);
  }

  lemma NamesNext(paths: seq<Path>, existing: Table, added: Table, symbol: string, t: Table)
    requires paths != [] && Contains(t, added[paths[0] := symbol])
    requires Names(paths[1..], existing, added[paths[0] := symbol], t)
    ensures Names(paths, existing, added, t)
  {
    SplitFirst(paths);
  }

  /** The new symbols are for the paths that had none, and each takes one number. */
  lemma {:induction false} NewSymbolsName(paths: seq<Path>, lo: nat, max: int, existing: Table, added: Table)
    requires existing.Keys !! added.Keys
    requires NewSymbols(paths, lo + |added|, max, existing, added).Some?
    ensures var t := NewSymbols(paths, lo + |added|, max, existing, added).value;
      && existing.Keys !! t.Keys && |added| <= |t| && (|t| > |added| ==> lo + |t| - 1 <= max)
      && Contains(t, added) && Names(paths, existing, added, t)
    decreases |paths|
  {
    hide GetSymKey;
    if paths != [] {
      var t := NewSymbols(paths, lo + |added|, max, existing, added).value;
      if paths[0] in existing || paths[0] in added {
        NewSymbolsName(paths[1..], lo, max, existing, added);
        NamesFirst(paths, existing, added, t);
      } else {
        var symbol := GetSymKey(lo + |added|).value;
        Grown(added, paths[0], symbol);
        NewSymbolsName(paths[1..], lo, max, existing, added[paths[0] := symbol]);
        NamesNext(paths, existing, added, symbol, t);
      }
    }
  }

  /** They are numbered without a gap from where the count began. */
  lemma {:induction false} NewSymbolsAreNumbered(paths: seq<Path>, lo: nat, max: int, existing: Table, added: Table)
    requires Injective(added) && Within(added, lo, lo + |added|)
    requires NewSymbols(paths, lo + |added|, max, existing, added).Some?
    ensures var t := NewSymbols(paths, lo + |added|, max, existing, added).value;
      Injective(t) && Within(t, lo, lo + |t|)
    decreases |paths|
  {
    hide GetSymKey, Injective, Within;
    if paths != [] {
      if paths[0] in existing || paths[0] in added {
        NewSymbolsAreNumbered(paths[1..], lo, max, existing, added);
      } else {
        var next := lo + |added|;
        PutNext(added, lo, next, paths[0]);
        Grown(added, paths[0], GetSymKey(next).value);
        NewSymbolsAreNumbered(paths[1..], lo, max, existing, added[paths[0] := GetSymKey(next).value]);
      }
    }
  }

  lemma Grown(t: Table, p: Path, symbol: string)
    requires p !in t
    ensures |t[p := symbol]| == |t| + 1 && Contains(t[p := symbol], t)
  {
    assert t[p := symbol].Keys == t.Keys + {p};
  }

  lemma SplitFirst(paths: seq<Path>)
    requires paths != []
    ensures forall p :: p in paths <==> p == paths[0] || p in paths[1..]
  {
    assert paths == [paths[0]] + paths[1..];
  }

  ghost function Unnamed(paths: seq<Path>, existing: Table, added: Table): set<Path> {
    set p | p in paths && p !in existing && p !in added
  }

  lemma UnnamedKnown(paths: seq<Path>, existing: Table, added: Table)
    requires paths != [] && (paths[0] in existing || paths[0] in added)
    ensures Unnamed(paths, existing, added) == Unnamed(paths[1..], existing, added)
  {
    SplitFirst(paths);
  }

  lemma UnnamedNext(paths: seq<Path>, existing: Table, added: Table, symbol: string)
    requires paths != [] && paths[0] !in existing && paths[0] !in added
    ensures |Unnamed(paths, existing, added)| == |Unnamed(paths[1..], existing, added[paths[0] := symbol])| + 1
  {
    SplitFirst(paths);
    var rest := Unnamed(paths[1..], existing, added[paths[0] := symbol]);
    assert Unnamed(paths, existing, added) == rest + {paths[0]} && paths[0] !in rest;
  }

  /** Binding throws exactly when the paths without a symbol do not fit in what is left of the range. */
  lemma {:induction false} BindingFailsExactly(paths: seq<Path>, start: nat, max: int, existing: Table, added: Table)
    ensures var n := |Unnamed(paths, existing, added)|;
      NewSymbols(paths, start, max, existing, added).None? <==> n > 0 && start + n > Min(max + 1, KEY_LIMIT)
    decreases |paths|
  {
    if paths == [] {
      assert Unnamed(paths, existing, added) == {};
    } else if paths[0] in existing || paths[0] in added {
      UnnamedKnown(paths, existing, added);
      BindingFailsExactly(paths[1..], start, max, existing, added);
    } else if start <= max && start < KEY_LIMIT {
      var symbol := GetSymKey(start).value;
      UnnamedNext(paths, existing, added, symbol);
      BindingFailsExactly(paths[1..], start + 1, max, existing, added[paths[0] := symbol]);
    } else {
      UnnamedNext(paths, existing, added, "");
    }
  }

  lemma EmptyInv()
    ensures Inv(EMPTY)
  {
  }

  /** A range reserved at the cursor meets no other. */
  lemma FirstReservationKeeps(s: Store, target: Target, tables: map<Target, Table>, table: Table)
    requires Inv(s) && target !in s.lowers && TableOk(table, s.cursor)
    requires tables == s.tables[target := table] || (tables == s.tables && table == map[])
    ensures var s' := Store(s.cursor + RANGE_SIZE, s.lowers[target := s.cursor], tables);
            Inv(s') && Extends(s, s') && TableOf(s', target) == table
  {
    hide TableOk;
    var s' := Store(s.cursor + RANGE_SIZE, s.lowers[target := s.cursor], tables);
    forall t | t in s'.lowers ensures RangeOk(s', t) {
      if t != target {
        assert RangeOk(s, t);
        assert TableOf(s', t) == TableOf(s, t);
      }
    }
    forall t | t in s.lowers ensures Kept(s, s', t) {
      assert t != target && TableOf(s', t) == TableOf(s, t);
    }
    forall t, u | t in s'.lowers && u in s'.lowers && t != u ensures Apart(s', t, u) {
      assert t != target ==> RangeOk(s, t);
      assert u != target ==> RangeOk(s, u);
      assert t != target && u != target ==> Apart(s, t, u);
    }
  }

  /** Adding symbols numbered from the first free index keeps the table; whatever is renamed was only
      seeded in the same deployment. */
  lemma AddingKeeps(s: Store, target: Target, added: Table)
    requires Inv(s) && target in s.lowers
    requires TableOk(TableOf(s, target) + added, s.lowers[target])
    ensures Inv(Add(s, target, added))
  {
    hide TableOk;
    var s' := Add(s, target, added);
    forall t | t in s'.lowers ensures RangeOk(s', t) {
      assert RangeOk(s, t);
      if t != target {
        assert TableOf(s', t) == TableOf(s, t);
      }
    }
    forall t, u | t in s'.lowers && u in s'.lowers && t != u ensures Apart(s', t, u) {
      assert Apart(s, t, u);
    }
  }

  lemma AddingExtends(s: Store, target: Target, added: Table)
    requires TableOf(s, target).Keys !! added.Keys
    ensures Extends(s, Add(s, target, added))
  {
    var s' := Add(s, target, added);
    forall t | t in s.lowers ensures Kept(s, s', t) {
      if t != target {
        assert TableOf(s', t) == TableOf(s, t);
      }
    }
  }

  /** The first deployment of a target: seeds below `lower + SLOTS`, new symbols from there on. */
  lemma FirstTableOk(seeds: Table, added: Table, lower: nat)
    requires Injective(seeds) && Within(seeds, lower, lower + SLOTS)
    requires Injective(added) && Within(added, lower + SLOTS, lower + SLOTS + |added|)
    requires SLOTS + |added| <= RANGE_SIZE
    ensures TableOk(seeds + added, lower)
  {
    Merge(seeds, added, lower, lower + SLOTS, lower + SLOTS + |added|);
    MergedSize(seeds, added);
    WithinWidens(seeds + added, lower, lower + SLOTS + |added|, lower,
        Min(lower + SLOTS + |seeds + added|, lower + RANGE_SIZE));
  }

  lemma MergedSize(t: Table, u: Table)
    ensures |u| <= |t + u| <= |t| + |u|
    ensures t.Keys !! u.Keys ==> |t + u| == |t| + |u|
  {
    assert (t + u).Keys == t.Keys + u.Keys;
    SizeOfUnion(t.Keys, u.Keys);
  }

  lemma SizeOfUnion<T>(a: set<T>, b: set<T>)
    ensures |b| <= |a + b| <= |a| + |b|
    ensures a !! b ==> |a + b| == |a| + |b|
  {
    assert a + b == (a - b) + b;
    assert a == (a - b) + a * b;
    assert a !! b ==> a - b == a;
  }

  /** A later deployment goes on past every symbol already in use, for the metadata are counted again. */
  lemma LaterTableOk(t: Table, added: Table, lower: nat)
    requires TableOk(t, lower) && t.Keys !! added.Keys
    requires Injective(added) && Within(added, lower + SLOTS + |t|, lower + SLOTS + |t| + |added|)
    requires |added| == 0 || SLOTS + |t| + |added| <= RANGE_SIZE
    ensures TableOk(t + added, lower)
  {
    MergedSize(t, added);
    if |added| == 0 {
      assert added.Keys == {} && t + added == t;
    } else {
      WithinWidens(t, lower, Min(lower + SLOTS + |t|, lower + RANGE_SIZE), lower, lower + SLOTS + |t|);
      Merge(t, added, lower, lower + SLOTS + |t|, lower + SLOTS + |t| + |added|);
    }
  }

  /* ---------- deployments ---------- */

  /** What binding adds: new names, numbered within the reservation. */
  lemma NewSymbolsFit(paths: seq<Path>, start: nat, max: int, existing: Table)
    requires NewSymbols(paths, start, max, existing, map[]).Some?
    ensures var t := NewSymbols(paths, start, max, existing, map[]).value;
      && Injective(t) && Within(t, start, start + |t|) && t.Keys !! existing.Keys
      && (|t| == 0 || start + |t| <= max + 1)
  {
    hide NewSymbols, GetSymKey, InRange;
    NewSymbolsName(paths, start, max, existing, map[]);
    NewSymbolsAreNumbered(paths, start, max, existing, map[]);
  }

  lemma FirstBindKeeps(s: Store, target: Target, paths: seq<Path>, r: Reservation)
    requires Inv(s) && target in s.lowers && r.existing == map[]
    requires r.start == s.lowers[target] + SLOTS && r.max == s.lowers[target] + RANGE_SIZE - 1
    requires Injective(TableOf(s, target)) && Within(TableOf(s, target), s.lowers[target], s.lowers[target] + SLOTS)
    ensures Inv(Bind(s, Some(r), target, paths).0)
  {
    hide NewSymbols, TableOk, Injective, Inv, Within, TableOf, Add;
    var bound := NewSymbols(paths, r.start, r.max, r.existing, map[]);
    if bound.Some? {
      NewSymbolsFit(paths, r.start, r.max, r.existing);
      FirstAddKeeps(s, target, bound.value);
    }
  }

  lemma FirstAddKeeps(s: Store, target: Target, added: Table)
    requires Inv(s) && target in s.lowers && Injective(TableOf(s, target)) && Injective(added)
    requires Within(TableOf(s, target), s.lowers[target], s.lowers[target] + SLOTS)
    requires Within(added, s.lowers[target] + SLOTS, s.lowers[target] + SLOTS + |added|)
    requires |added| == 0 || SLOTS + |added| <= RANGE_SIZE
    ensures Inv(Add(s, target, added))
  {
    hide TableOk, Injective, Inv, Within, TableOf;
    if |added| > 0 {
      FirstTableOk(TableOf(s, target), added, s.lowers[target]);
      AddingKeeps(s, target, added);
    }
  }

  lemma ExtendsItself(s: Store)
    ensures Extends(s, s)
  {
    forall t | t in s.lowers ensures Kept(s, s, t) {
    }
  }

  lemma LaterAddKeeps(s: Store, target: Target, added: Table, lower: nat)
    requires Inv(s) && target in s.lowers && s.lowers[target] == lower
    requires Injective(added) && added.Keys !! TableOf(s, target).Keys
    requires var start := lower + SLOTS + |TableOf(s, target)|;
      Within(added, start, start + |added|) && (|added| == 0 || start + |added| <= lower + RANGE_SIZE)
    ensures Inv(Add(s, target, added)) && Extends(s, Add(s, target, added))
  {
    hide TableOk;
    assert RangeOk(s, target);
    LaterTableOk(TableOf(s, target), added, lower);
    AddingKeeps(s, target, added);
    AddingExtends(s, target, added);
  }

  lemma LaterBindKeeps(s: Store, target: Target, paths: seq<Path>, r: Reservation)
    requires Inv(s) && target in s.lowers && r.existing == TableOf(s, target)
    requires r.start == s.lowers[target] + SLOTS + |r.existing| && r.max == s.lowers[target] + RANGE_SIZE - 1
    ensures var s' := Bind(s, Some(r), target, paths).0; Inv(s') && Extends(s, s')
  {
    hide NewSymbols, TableOk;
    var bound := NewSymbols(paths, r.start, r.max, r.existing, map[]);
    if bound.Some? {
      NewSymbolsFit(paths, r.start, r.max, r.existing);
      LaterAddKeeps(s, target, bound.value, s.lowers[target]);
    } else {
      ExtendsItself(s);
    }
  }

  lemma SeedsFit(kind: Kind, target: Target, lower: nat)
    requires Seeds(kind, target, lower, MetadataKeys(kind)).Some?
    ensures var t := Seeds(kind, target, lower, MetadataKeys(kind)).value;
      Injective(t) && Within(t, lower, lower + SLOTS) && TableOk(t, lower)
  {
    var t, n := Seeds(kind, target, lower, MetadataKeys(kind)).value, |MetadataKeys(kind)|;
    SeedsAre(kind, target, lower, MetadataKeys(kind));
    assert n <= SLOTS;
    WithinWidens(t, lower, lower + n, lower, lower + SLOTS);
    WithinWidens(t, lower, lower + n, lower, Min(lower + SLOTS + |t|, lower + RANGE_SIZE));
  }

  lemma ReserveFirstKeeps(s: Store, target: Target, seeds: Option<Table>)
    requires Inv(s) && target !in s.lowers && (seeds.Some? ==> TableOk(seeds.value, s.cursor))
    ensures var (s', r) := ReserveFirst(s, target, seeds);
      Inv(s') && Extends(s, s') && target in s'.lowers && s'.lowers[target] == s.cursor
          && (r.Some? ==> TableOf(s', target) == seeds.value)
  {
    hide TableOk;
    if seeds.Some? {
      assert TableOf(s, target) + seeds.value == seeds.value;
      FirstReservationKeeps(s, target, s.tables[target := seeds.value], seeds.value);
    } else {
      EmptyTable(s.cursor);
      FirstReservationKeeps(s, target, s.tables, map[]);
    }
  }

  lemma BindLeavesOthers(s: Store, s1: Store, r: Option<Reservation>, target: Target, paths: seq<Path>)
    requires Extends(s, s1) && target !in s.lowers
    ensures Extends(s, Bind(s1, r, target, paths).0)
  {
    hide NewSymbols, Contains;
    var s' := Bind(s1, r, target, paths).0;
    assert s'.lowers == s1.lowers;
    forall t | t in s.lowers ensures Kept(s, s', t) {
      assert Kept(s, s1, t);
      assert t != target && TableOf(s', t) == TableOf(s1, t);
    }
  }

  /** A deployment keeps the symbols of different paths apart, and everything that had a symbol before. */
  lemma DeployKeeps(s: Store, item: Item)
    requires Inv(s)
    ensures Inv(Deploy(s, item).0) && Extends(s, Deploy(s, item).0)
  {
    hide Seeds, NewSymbols, TableOk, Injective, Within;
    var target := item.target;
    if target in s.lowers {
      LaterBindKeeps(s, target, item.paths, Reserve(s, target, item.kind).1.value);
    } else {
      var seeds := Seeds(item.kind, target, s.cursor, MetadataKeys(item.kind));
      if seeds.Some? {
        SeedsFit(item.kind, target, s.cursor);
      }
      FirstDeployKeeps(s, target, seeds, item.paths);
    }
  }

  lemma FirstDeployKeeps(s: Store, target: Target, seeds: Option<Table>, paths: seq<Path>)
    requires Inv(s) && target !in s.lowers
    requires seeds.Some? ==>
      TableOk(seeds.value, s.cursor) && Injective(seeds.value) && Within(seeds.value, s.cursor, s.cursor + SLOTS)
    ensures var (s1, r) := ReserveFirst(s, target, seeds);
      Inv(Bind(s1, r, target, paths).0) && Extends(s, Bind(s1, r, target, paths).0)
  {
    hide NewSymbols, TableOk, Injective, Within, Contains;
    var (s1, r) := ReserveFirst(s, target, seeds);
    ReserveFirstKeeps(s, target, seeds);
    if r.Some? {
      FirstBindKeeps(s1, target, paths, r.value);
    }
    BindLeavesOthers(s, s1, r, target, paths);
  }

  /* ---------- any sequence of deployments ---------- */

  /** The stores between the deployments of one target after another, of any versions, failed ones included. */
  datatype Trace = Trace(stores: seq<Store>, items: seq<Item>)

  ghost predicate StepAt(t: Trace, i: nat) {
    i < |t.items| && i + 1 < |t.stores| && t.stores[i + 1] == Deploy(t.stores[i], t.items[i]).0
  }

  ghost predicate IsRun(t: Trace) {
    && |t.stores| == |t.items| + 1 && t.stores[0] == EMPTY
    && forall i {:trigger StepAt(t, i)} :: 0 <= i < |t.items| ==> StepAt(t, i)
  }

  lemma {:induction false} RunKeepsInv(t: Trace, n: nat)
    requires IsRun(t) && n < |t.stores|
    ensures Inv(t.stores[n])
  {
    if n > 0 {
      RunKeepsInv(t, n - 1);
      assert StepAt(t, n - 1);
      DeployKeeps(t.stores[n - 1], t.items[n - 1]);
    }
  }

  /** Different targets' ranges never meet. */
  lemma RangesAreDisjoint(t: Trace, n: nat, a: Target, b: Target)
    requires IsRun(t) && n < |t.stores| && a in t.stores[n].lowers && b in t.stores[n].lowers && a != b
    ensures var la, lb := t.stores[n].lowers[a], t.stores[n].lowers[b]; la + RANGE_SIZE <= lb || lb + RANGE_SIZE <= la
  {
    RunKeepsInv(t, n);
    assert Apart(t.stores[n], a, b);
  }

  /** No symbol lies outside its target's range. */
  lemma NoRangeSpills(t: Trace, n: nat, target: Target, p: Path)
    requires IsRun(t) && n < |t.stores| && target in t.stores[n].tables && p in t.stores[n].tables[target]
    ensures target in t.stores[n].lowers
    ensures InRange(t.stores[n].tables[target][p], t.stores[n].lowers[target], t.stores[n].lowers[target] + RANGE_SIZE)
  {
    RunKeepsInv(t, n);
    assert RangeOk(t.stores[n], target);
    assert TableOf(t.stores[n], target) == t.stores[n].tables[target];
  }

  /** No two paths of the app share a symbol, be they of one target or of two. */
  lemma SymbolsAreUnique(t: Trace, n: nat, a: Target, p: Path, b: Target, q: Path)
    requires IsRun(t) && n < |t.stores|
    requires a in t.stores[n].tables && p in t.stores[n].tables[a]
    requires b in t.stores[n].tables && q in t.stores[n].tables[b]
    requires t.stores[n].tables[a][p] == t.stores[n].tables[b][q]
    ensures a == b && p == q
  {
    NoRangeSpills(t, n, a, p);
    NoRangeSpills(t, n, b, q);
    if a != b {
      RangesAreDisjoint(t, n, a, b);
      assert false;
    }
    RunKeepsInv(t, n);
    assert RangeOk(t.stores[n], a);
    assert Same(TableOf(t.stores[n], a), p, q);
  }

  /** Once a deployment has given a path its symbol, no later deployment changes it. */
  lemma {:induction false} SymbolsNeverChange(t: Trace, m: nat, n: nat, target: Target, p: Path)
    requires IsRun(t) && m <= n < |t.stores|
    requires target in t.stores[m].tables && p in t.stores[m].tables[target]
    ensures target in t.stores[n].tables && p in t.stores[n].tables[target]
    ensures t.stores[n].tables[target][p] == t.stores[m].tables[target][p]
  {
    if m < n {
      SymbolsNeverChange(t, m, n - 1, target, p);
      RunKeepsInv(t, n - 1);
      assert StepAt(t, n - 1);
      DeployKeeps(t.stores[n - 1], t.items[n - 1]);
      assert RangeOk(t.stores[n - 1], target);
      assert Kept(t.stores[n - 1], t.stores[n], target);
      assert p in TableOf(t.stores[n - 1], target);
    }
  }

  /** A later deployment of a target fails exactly when the paths it adds do not fit behind those it has. */
  lemma LaterDeployFailsExactly(s: Store, item: Item)
    requires item.target in s.lowers
    ensures var lower, table := s.lowers[item.target], TableOf(s, item.target);
      var n := |Unnamed(item.paths, table, map[])|;
      !Deploy(s, item).1 <==> n > 0 && lower + SLOTS + |table| + n > Min(lower + RANGE_SIZE, KEY_LIMIT)
  {
    hide NewSymbols;
    var lower, table := s.lowers[item.target], TableOf(s, item.target);
    BindingFailsExactly(item.paths, lower + SLOTS + |table|, lower + RANGE_SIZE - 1, table, map[]);
  }

  /** After a deployment that does not throw, each of its paths has a symbol. */
  lemma DeployedPathsHaveSymbols(s: Store, item: Item, p: Path)
    requires Deploy(s, item).1 && p in item.paths
    ensures var s' := Deploy(s, item).0; p in TableOf(s', item.target)
  {
    hide Bind, Seeds, MetadataKeys, TableOf;
    var (s1, r) := Reserve(s, item.target, item.kind);
    BoundPathsHaveSymbols(s1, r, item.target, item.paths, p);
  }

  lemma BoundPathsHaveSymbols(s: Store, r: Option<Reservation>, target: Target, paths: seq<Path>, p: Path)
    requires Bind(s, r, target, paths).1 && p in paths
    requires r.Some? ==> r.value.existing == TableOf(s, target) || r.value.existing == map[]
    ensures p in TableOf(Bind(s, r, target, paths).0, target)
  {
    hide NewSymbols, Contains, GetSymKey, Add, TableOf;
    var added := NewSymbols(paths, r.value.start, r.value.max, r.value.existing, map[]).value;
    NewSymbolsName(paths, r.value.start, r.value.max, r.value.existing, map[]);
    AddedIsThere(s, target, added, p);
  }

  lemma AddedIsThere(s: Store, target: Target, added: Table, p: Path)
    requires p in added || p in TableOf(s, target)
    ensures p in TableOf(Add(s, target, added), target)
  {
    SizeAtLeastOne(added, p);
  }

  lemma AddGives(s: Store, target: Target, added: Table)
    requires |added| > 0
    ensures TableOf(Add(s, target, added), target) == TableOf(s, target) + added
  {
  }

  /** Even a path that is one of the metadata just seeded gets a new number in a target's first deployment,
      behind the slots kept for metadata: that deployment believes there are no symbols yet. */
  lemma FirstDeployRenames(s: Store, r: Reservation, target: Target, paths: seq<Path>, p: Path)
    requires target in s.lowers && r.existing == map[] && r.start == s.lowers[target] + SLOTS
    requires Bind(s, Some(r), target, paths).1 && p in paths
    ensures var table := TableOf(Bind(s, Some(r), target, paths).0, target);
      p in table && IsSymKey(table[p]) && SymKeyIndex(table[p]) >= s.lowers[target] + SLOTS
  {
    hide NewSymbols, SymKeyIndex, Add, TableOf;
    var added := NewSymbols(paths, r.start, r.max, r.existing, map[]).value;
    FreshNameInRange(paths, r.start, r.max, p);
    AddGives(s, target, added);
  }

  lemma FreshNameInRange(paths: seq<Path>, start: nat, max: int, p: Path)
    requires NewSymbols(paths, start, max, map[], map[]).Some? && p in paths
    ensures var t := NewSymbols(paths, start, max, map[], map[]).value;
      |t| > 0 && p in t && IsSymKey(t[p]) && SymKeyIndex(t[p]) >= start
  {
    hide NewSymbols, Injective, Contains, SymKeyIndex;
    var t := NewSymbols(paths, start, max, map[], map[]).value;
    NewSymbolsFit(paths, start, max, map[]);
    NewSymbolsName(paths, start, max, map[], map[]);
    SizeAtLeastOne(t, p);
    assert InRange(t[p], start, start + |t|);
  }

  lemma SizeAtLeastOne(t: Table, p: Path)
    ensures p in t ==> |t| > 0
  {
    if |t| == 0 {
      assert t.Keys == {};
    }
  }

  /* ---------- metadata paths have symbols ---------- */

  ghost predicate MetadataNamed(s: Store, target: Target, kind: Kind) {
    forall key, p {:trigger IsMetadataPath(kind, target, key, p)} ::
      key in MetadataKeys(kind) && IsMetadataPath(kind, target, key, p) ==> p in TableOf(s, target)
  }

  /** A first deployment that succeeds leaves every metadata path of the target with a symbol. */
  lemma FirstDeployNamesMetadata(s: Store, item: Item)
    requires item.target !in s.lowers && Deploy(s, item).1
    ensures MetadataNamed(Deploy(s, item).0, item.target, item.kind)
  {
    hide GetSymKey, NewSymbols, MetadataKeys, Seeds, IsMetadataPath;
    var keys := MetadataKeys(item.kind);
    var seeds := Seeds(item.kind, item.target, s.cursor, keys);
    KeysAreUnlike(item.kind);
    SeedsName(item.kind, item.target, s.cursor, keys);
    forall key, p | key in keys && IsMetadataPath(item.kind, item.target, key, p)
      ensures p in TableOf(Deploy(s, item).0, item.target)
    {
      var i :| 0 <= i < |keys| && keys[i] == key;
      assert IsMetadataPath(item.kind, item.target, keys[i], p);
      assert p in seeds.value;
    }
  }

  lemma MetadataStaysNamed(s: Store, s': Store, target: Target, kind: Kind)
    requires MetadataNamed(s, target, kind) && target in s.lowers && Extends(s, s')
    ensures MetadataNamed(s', target, kind)
  {
    assert Kept(s, s', target);
  }

  lemma DeployReserves(s: Store, item: Item)
    ensures Deploy(s, item).0.lowers.Keys == s.lowers.Keys + {item.target}
    ensures item.target !in s.lowers ==> Deploy(s, item).0.lowers[item.target] == s.cursor
  {
    hide NewSymbols, Seeds, MetadataKeys;
  }

  /** Even where binding throws, the metadata that were seeded before it stay. */
  lemma FailedDeploySeeds(s: Store, item: Item)
    requires Inv(s) && item.target !in s.lowers && s.cursor + |MetadataKeys(item.kind)| <= KEY_LIMIT
    ensures MetadataNamed(Deploy(s, item).0, item.target, item.kind)
  {
    hide NewSymbols, MetadataKeys, Seeds, IsMetadataPath;
    var keys := MetadataKeys(item.kind);
    SeedsFailExactly(item.kind, item.target, s.cursor, keys);
    if Deploy(s, item).1 {
      FirstDeployNamesMetadata(s, item);
    } else {
      var seeds := Seeds(item.kind, item.target, s.cursor, keys).value;
      KeysAreUnlike(item.kind);
      SeedsName(item.kind, item.target, s.cursor, keys);
      assert TableOf(Deploy(s, item).0, item.target) == TableOf(s, item.target) + seeds;
      forall key, p | key in keys && IsMetadataPath(item.kind, item.target, key, p)
        ensures p in TableOf(Deploy(s, item).0, item.target)
      {
        var i :| 0 <= i < |keys| && keys[i] == key;
        assert IsMetadataPath(item.kind, item.target, keys[i], p);
      }
    }
  }

  ghost predicate OneKind(items: seq<Item>, target: Target, kind: Kind) {
    forall i :: 0 <= i < |items| && items[i].target == target ==> items[i].kind == kind
  }

  /** From its first deployment on, and whether or not that one went through: every metadata path of a target has a
      symbol, as long as its range begins low enough for them. */
  lemma {:induction false} MetadataAreNamed(t: Trace, n: nat, target: Target, kind: Kind)
    requires IsRun(t) && n < |t.stores| && target in t.stores[n].lowers && OneKind(t.items, target, kind)
    requires t.stores[n].lowers[target] + |MetadataKeys(kind)| <= KEY_LIMIT
    ensures MetadataNamed(t.stores[n], target, kind)
  {
    hide Deploy, MetadataKeys, MetadataNamed, Inv, Contains;
    if n > 0 {
      var s, item := t.stores[n - 1], t.items[n - 1];
      assert StepAt(t, n - 1);
      RunKeepsInv(t, n - 1);
      DeployKeeps(s, item);
      DeployReserves(s, item);
      if target in s.lowers {
        assert Kept(s, t.stores[n], target);
        MetadataAreNamed(t, n - 1, target, kind);
        MetadataStaysNamed(s, t.stores[n], target, kind);
      } else {
        FailedDeploySeeds(s, item);
      }
    }
  }

  /** A range that begins too high for the metadata holds nothing for ever. */
  lemma {:induction false} TooHighStaysEmpty(t: Trace, n: nat, target: Target, kind: Kind)
    requires IsRun(t) && n < |t.stores| && target in t.stores[n].lowers && OneKind(t.items, target, kind)
    requires t.stores[n].lowers[target] + |MetadataKeys(kind)| > KEY_LIMIT
    ensures TableOf(t.stores[n], target) == map[]
  {
    hide Deploy, MetadataKeys, Inv, Contains;
    if n > 0 {
      var s, item := t.stores[n - 1], t.items[n - 1];
      assert StepAt(t, n - 1);
      RunKeepsInv(t, n - 1);
      DeployKeeps(s, item);
      DeployReserves(s, item);
      SomeKeys(kind);
      if target in s.lowers {
        assert Kept(s, t.stores[n], target);
        TooHighStaysEmpty(t, n - 1, target, kind);
        LaterDeployStaysEmpty(s, item, target);
      } else {
        SeedlessDeploy(s, item);
      }
    }
  }

  lemma LaterDeployStaysEmpty(s: Store, item: Item, target: Target)
    requires target in s.lowers && TableOf(s, target) == map[] && s.lowers[target] + SLOTS > KEY_LIMIT
    ensures TableOf(Deploy(s, item).0, target) == map[]
  {
    hide NewSymbols, Seeds, MetadataKeys, Bind;
    var (s1, r) := Reserve(s, item.target, item.kind);
    if item.target == target {
      BindsNothing(s, r.value, target, item.paths);
    } else {
      OthersStay(s1, r, item.target, item.paths, target);
    }
  }

  lemma OthersStay(s: Store, r: Option<Reservation>, target: Target, paths: seq<Path>, other: Target)
    requires other != target
    ensures TableOf(Bind(s, r, target, paths).0, other) == TableOf(s, other)
  {
    hide NewSymbols;
  }

  lemma BindsNothing(s: Store, r: Reservation, target: Target, paths: seq<Path>)
    requires r.existing == map[] && r.start >= KEY_LIMIT
    ensures Bind(s, Some(r), target, paths).0 == s
  {
    hide NewSymbols;
    NothingFits(paths, r.start, r.max);
  }

  lemma NothingFits(paths: seq<Path>, start: nat, max: int)
    requires start >= KEY_LIMIT
    ensures var added := NewSymbols(paths, start, max, map[], map[]); added.None? || added.value == map[]
  {
  }

  lemma SeedlessDeploy(s: Store, item: Item)
    requires Inv(s) && item.target !in s.lowers && s.cursor + |MetadataKeys(item.kind)| > KEY_LIMIT
    ensures TableOf(Deploy(s, item).0, item.target) == map[]
  {
    hide NewSymbols, Seeds, MetadataKeys;
    SomeKeys(item.kind);
    SeedsFailExactly(item.kind, item.target, s.cursor, MetadataKeys(item.kind));
  }
}
