/** Paths shortened to symbols and back: what one pass of a symbol map over a flat document does, and a list of
    passes. */
module Compression {

  /** A flat document, and a map from paths to symbols (or, reversed, from symbols to paths). */
  type Doc = map<string, string>
  type SymbolMap = map<string, string>

  /** `map.get(x) || x`: an empty string counts as missing. */
  function Lookup(m: SymbolMap, x: string): string {
    if x in m && m[x] != "" then m[x] else x
  }

  /** A name after each map in turn. */
  function Passed(x: string, maps: seq<SymbolMap>): string {
    if |maps| == 0 then x else Lookup(maps[|maps| - 1], Passed(x, maps[..|maps| - 1]))
  }

  predicate FieldMoved(doc: Doc, doc': Doc, maps: seq<SymbolMap>, k: string)
    requires k in doc
  {
    Passed(k, maps) in doc' && doc'[Passed(k, maps)] == Passed(doc[k], maps)
  }

  ghost predicate HasSource(doc: Doc, maps: seq<SymbolMap>, k': string) {
    exists k :: k in doc && Passed(k, maps) == k'
  }

  /** Each field under its new name, with its new text, and no other field. */
  ghost predicate IsRenamed(doc: Doc, doc': Doc, maps: seq<SymbolMap>) {
    && (forall k {:trigger FieldMoved(doc, doc', maps, k)} :: k in doc ==> FieldMoved(doc, doc', maps, k))
    && (forall k' {:trigger HasSource(doc, maps, k')} :: k' in doc' ==> HasSource(doc, maps, k'))
  }

  predicate Collide(doc: Doc, m: SymbolMap, a: string, b: string) {
    a in doc && b in doc && Lookup(m, a) == Lookup(m, b)
  }

  predicate Settled(m: SymbolMap, x: string) {
    Lookup(m, x) == x
  }

  predicate FieldSettles(doc: Doc, m: SymbolMap, a: string)
    requires a in doc
  {
    && (Lookup(m, a) in doc ==> Lookup(m, a) == a)
    && Settled(m, Lookup(m, a)) && Settled(m, Lookup(m, doc[a]))
  }

  /** One pass can rename in place: it confuses no two fields and has nothing to do to its own results. */
  ghost predicate PassOk(doc: Doc, m: SymbolMap) {
    && (forall a, b {:trigger Collide(doc, m, a, b)} :: Collide(doc, m, a, b) ==> a == b)
    && (forall a {:trigger FieldSettles(doc, m, a)} :: a in doc ==> FieldSettles(doc, m, a))
  }

  /** The field as one pass leaves it. */
  predicate FieldDone(doc: Doc, doc': Doc, m: SymbolMap, k: string)
    requires k in doc
  {
    Lookup(m, k) in doc' && doc'[Lookup(m, k)] == Lookup(m, doc[k])
  }

  predicate FieldWaits(doc: Doc, doc': Doc, k: string)
    requires k in doc
  {
    k in doc' && doc'[k] == doc[k]
  }

  ghost predicate Accounted(doc: Doc, m: SymbolMap, pending: set<string>, k': string) {
    (k' in doc && k' in pending) || exists k :: k in doc && k !in pending && Lookup(m, k) == k'
  }

  /** Where a pass has got to: fields in `pending` are as they were, all others are renamed. */
  ghost predicate HalfRenamed(doc: Doc, doc': Doc, m: SymbolMap, pending: set<string>) {
    && (forall k {:trigger FieldWaits(doc, doc', k)} :: k in doc && k in pending ==> FieldWaits(doc, doc', k))
    && (forall k {:trigger FieldDone(doc, doc', m, k)} :: k in doc && k !in pending ==> FieldDone(doc, doc', m, k))
    && (forall k' {:trigger Accounted(doc, m, pending, k')} :: k' in doc' ==> Accounted(doc, m, pending, k'))
  }

  lemma VisitPending(doc: Doc, doc': Doc, m: SymbolMap, pending: set<string>, key: string)
    requires PassOk(doc, m) && HalfRenamed(doc, doc', m, pending) && key in doc && key in pending
    ensures key in doc' && doc'[key] == doc[key]
    ensures HalfRenamed(doc, (doc' - {key})[Lookup(m, key) := Lookup(m, doc[key])], m, pending - {key})
  {
    hide Lookup;
    var doc2 := (doc' - {key})[Lookup(m, key) := Lookup(m, doc[key])];
    var rest := pending - {key};
    assert FieldWaits(doc, doc', key) && FieldSettles(doc, m, key);
    forall k | k in doc && k in rest ensures FieldWaits(doc, doc2, k) {
      assert FieldWaits(doc, doc', k);
    }
    forall k | k in doc && k !in rest ensures FieldDone(doc, doc2, m, k) {
      if k != key {
        assert FieldDone(doc, doc', m, k);
        assert FieldSettles(doc, m, k);
        assert !Collide(doc, m, k, key);
      }
    }
    forall k' | k' in doc2 ensures Accounted(doc, m, rest, k') {
      if k' != Lookup(m, key) {
        assert Accounted(doc, m, pending, k');
      }
    }
  }

  /** A name that the pass has put in is left alone if the loop comes to it. */
  lemma VisitRenamed(doc: Doc, doc': Doc, m: SymbolMap, pending: set<string>, key: string)
    requires PassOk(doc, m) && HalfRenamed(doc, doc', m, pending) && key in doc' && !(key in doc && key in pending)
    ensures Lookup(m, key) == key && Lookup(m, doc'[key]) == doc'[key]
  {
    hide Lookup;
    assert Accounted(doc, m, pending, key);
    var k :| k in doc && k !in pending && Lookup(m, k) == key;
    assert FieldDone(doc, doc', m, k) && FieldSettles(doc, m, k);
  }

  /** A name that is not in the document, or no longer, need not be waited for. */
  lemma SkipName(doc: Doc, doc': Doc, m: SymbolMap, pending: set<string>, key: string)
    requires HalfRenamed(doc, doc', m, pending) && !(key in doc && key in pending)
    ensures HalfRenamed(doc, doc', m, pending - {key})
  {
    forall k | k in doc && k in pending - {key} ensures FieldWaits(doc, doc', k) {
    }
    forall k | k in doc && k !in pending - {key} ensures FieldDone(doc, doc', m, k) {
    }
    forall k' | k' in doc' ensures Accounted(doc, m, pending - {key}, k') {
      assert Accounted(doc, m, pending, k');
    }
  }

  /** A name that the document does not have may be waited for. */
  lemma AwaitName(doc: Doc, doc': Doc, m: SymbolMap, pending: set<string>, key: string)
    requires HalfRenamed(doc, doc', m, pending) && key !in doc
    ensures HalfRenamed(doc, doc', m, pending + {key})
  {
    forall k | k in doc && k in pending + {key} ensures FieldWaits(doc, doc', k) {
    }
    forall k | k in doc && k !in pending + {key} ensures FieldDone(doc, doc', m, k) {
    }
    forall k' | k' in doc' ensures Accounted(doc, m, pending + {key}, k') {
      assert Accounted(doc, m, pending, k');
    }
  }

  lemma NothingDone(doc: Doc, m: SymbolMap)
    ensures HalfRenamed(doc, doc, m, doc.Keys)
  {
    forall k' | k' in doc ensures Accounted(doc, m, doc.Keys, k') {
    }
  }

  /** What the loop body does with one of the names. */
  function Visited(doc': Doc, m: SymbolMap, key: string): Doc
    requires key in doc'
  {
    var safeKey, safeValue := Lookup(m, key), Lookup(m, doc'[key]);
    if safeKey == key then doc'[key := safeValue] else doc'[safeKey := safeValue] - {key}
  }

  lemma VisitKeeps(doc: Doc, doc': Doc, m: SymbolMap, pending: set<string>, key: string)
    requires PassOk(doc, m) && HalfRenamed(doc, doc', m, pending) && key in doc'
    ensures HalfRenamed(doc, Visited(doc', m, key), m, pending - {key})
    ensures Lookup(m, key) != key ==> Lookup(m, key) !in doc
  {
    hide HalfRenamed, Lookup;
    if key in doc && key in pending {
      VisitPending(doc, doc', m, pending, key);
      assert FieldSettles(doc, m, key);
      assert Visited(doc', m, key) == (doc' - {key})[Lookup(m, key) := Lookup(m, doc[key])];
    } else {
      VisitRenamed(doc, doc', m, pending, key);
      SkipName(doc, doc', m, pending, key);
      assert Visited(doc', m, key) == doc';
    }
  }

  /* ---------- maps that can be undone ---------- */

  /** What the allocator guarantees of the maps of one app: no symbol is a path, a symbol stands for one path,
      and neither is empty. */
  ghost predicate Sound(maps: seq<SymbolMap>) {
    && (forall i, j, p {:trigger maps[i][p], maps[j]} :: 0 <= i < |maps| && 0 <= j < |maps| && p in maps[i] ==>
        maps[i][p] !in maps[j])
    && (forall i, j, p, q {:trigger maps[i][p], maps[j][q]} ::
          0 <= i < |maps| && 0 <= j < |maps| && p in maps[i] && q in maps[j] && maps[i][p] == maps[j][q] ==> p == q)
    && (forall i, p {:trigger maps[i][p]} :: 0 <= i < |maps| && p in maps[i] ==> p != "" && maps[i][p] != "")
  }

  /** A name that is no symbol. */
  ghost predicate Clean(x: string, maps: seq<SymbolMap>) {
    forall i, p {:trigger maps[i][p]} :: 0 <= i < |maps| && p in maps[i] ==> maps[i][p] != x
  }

  /** The first maps turned round. */
  ghost predicate Reversed(revs: seq<SymbolMap>, maps: seq<SymbolMap>) {
    && |revs| <= |maps|
    && (forall i, s {:trigger revs[i][s]} :: 0 <= i < |revs| && s in revs[i] ==>
        revs[i][s] in maps[i] && maps[i][revs[i][s]] == s)
    && (forall i, p {:trigger maps[i][p]} :: 0 <= i < |revs| && p in maps[i] ==> maps[i][p] in revs[i])
  }

  /** The name itself, or its symbol in one of the maps. */
  ghost predicate Shortened(x: string, y: string, maps: seq<SymbolMap>) {
    y == x || exists j {:trigger maps[j]} :: 0 <= j < |maps| && x in maps[j] && y == maps[j][x]
  }

  lemma {:induction false} PassedIs(x: string, maps: seq<SymbolMap>, n: nat)
    requires n <= |maps| && Sound(maps)
    ensures var y := Passed(x, maps[..n]);
      || (y == x && forall i :: 0 <= i < n ==> x !in maps[i])
      || exists j :: 0 <= j < n && x in maps[j] && y == maps[j][x]
  {
    if n > 0 {
      PassedIs(x, maps, n - 1);
      assert maps[..n][..n - 1] == maps[..n - 1];
      var before, y := Passed(x, maps[..n - 1]), Passed(x, maps[..n]);
      assert y == Lookup(maps[n - 1], before);
      if before == x && x in maps[n - 1] {
        assert y == maps[n - 1][x];
      } else if before != x {
        var j :| 0 <= j < n - 1 && x in maps[j] && before == maps[j][x];
        assert maps[j][x] !in maps[n - 1];
      }
    }
  }

  lemma PassedIsShortened(x: string, maps: seq<SymbolMap>)
    requires Sound(maps)
    ensures Shortened(x, Passed(x, maps), maps)
  {
    assert maps[..|maps|] == maps;
    PassedIs(x, maps, |maps|);
  }

  /** Different names stay different. */
  lemma ShortenedInjective(x: string, z: string, y: string, maps: seq<SymbolMap>)
    requires Sound(maps) && Clean(x, maps) && Clean(z, maps) && Shortened(x, y, maps) && Shortened(z, y, maps)
    ensures x == z
  {
  }

  /** On the way back, a name is its path again or still what it was shortened to. */
  lemma {:induction false} ReturningIs(x: string, y: string, maps: seq<SymbolMap>, revs: seq<SymbolMap>, n: nat)
    requires n <= |revs| && Sound(maps) && Clean(x, maps) && Reversed(revs, maps) && Shortened(x, y, maps)
    ensures var z := Passed(y, revs[..n]);
      z == x || (z == y && forall i :: 0 <= i < n ==> y !in revs[i])
  {
    if n > 0 {
      ReturningIs(x, y, maps, revs, n - 1);
      assert revs[..n][..n - 1] == revs[..n - 1];
      var before := Passed(y, revs[..n - 1]);
      assert Passed(y, revs[..n]) == Lookup(revs[n - 1], before);
      if before in revs[n - 1] {
        assert maps[n - 1][revs[n - 1][before]] == before;
      }
    }
  }

  /** Restoring a shortened name gives the name. */
  lemma NameRoundTrip(x: string, y: string, maps: seq<SymbolMap>, revs: seq<SymbolMap>)
    requires Sound(maps) && Clean(x, maps) && Reversed(revs, maps) && |revs| == |maps| && Shortened(x, y, maps)
    ensures Passed(y, revs) == x
  {
    var n := |maps|;
    assert revs[..n] == revs;
    ReturningIs(x, y, maps, revs, n);
    if y != x {
      var j :| 0 <= j < n && x in maps[j] && y == maps[j][x];
      assert y in revs[j];
    }
  }

  /** Shortening and restoring gives a name back exactly if it is not itself spelled like one of the symbols. */
  lemma NameRoundTripExactly(x: string, maps: seq<SymbolMap>, revs: seq<SymbolMap>)
    requires Sound(maps) && Reversed(revs, maps) && |revs| == |maps|
    ensures Passed(Passed(x, maps), revs) == x <==> Clean(x, maps)
  {
    PassedIsShortened(x, maps);
    if Clean(x, maps) {
      NameRoundTrip(x, Passed(x, maps), maps, revs);
    } else {
      var i, p :| 0 <= i < |maps| && p in maps[i] && maps[i][p] == x;
      assert forall j :: 0 <= j < |maps| ==> x !in maps[j];
      assert Passed(x, maps) == x;
      assert Shortened(p, x, maps);
      PathIsClean(p, i, maps);
      NameRoundTrip(p, x, maps, revs);
    }
  }

  lemma PathIsClean(p: string, i: nat, maps: seq<SymbolMap>)
    requires Sound(maps) && i < |maps| && p in maps[i]
    ensures Clean(p, maps)
  {
    forall j, q | 0 <= j < |maps| && q in maps[j] ensures maps[j][q] != p {
      assert maps[j][q] !in maps[i];
    }
  }

  /* ---------- whole documents ---------- */

  /** No key and no value of the document is a symbol. */
  ghost predicate Ready(doc: Doc, maps: seq<SymbolMap>) {
    && Sound(maps)
    && forall k {:trigger k in doc} :: k in doc ==> Clean(k, maps) && Clean(doc[k], maps)
  }

  lemma NothingPassed(doc: Doc, maps: seq<SymbolMap>)
    ensures IsRenamed(doc, doc, maps[..0])
  {
    forall k | k in doc ensures FieldMoved(doc, doc, maps[..0], k) && HasSource(doc, maps[..0], k) {
      assert Passed(k, maps[..0]) == k;
    }
  }

  /** One more pass. */
  lemma PassOn(doc: Doc, cur: Doc, cur': Doc, maps: seq<SymbolMap>, n: nat)
    requires n < |maps| && IsRenamed(doc, cur, maps[..n]) && HalfRenamed(cur, cur', maps[n], {})
    ensures IsRenamed(doc, cur', maps[..n + 1])
  {
    hide Lookup, Passed;
    forall k | k in doc ensures FieldMoved(doc, cur', maps[..n + 1], k) {
      OnePass(k, maps, n);
      OnePass(doc[k], maps, n);
      assert FieldMoved(doc, cur, maps[..n], k);
      assert FieldDone(cur, cur', maps[n], Passed(k, maps[..n]));
    }
    forall k' | k' in cur' ensures HasSource(doc, maps[..n + 1], k') {
      assert Accounted(cur, maps[n], {}, k');
      var c :| c in cur && Lookup(maps[n], c) == k';
      assert HasSource(doc, maps[..n], c);
      var k :| k in doc && Passed(k, maps[..n]) == c;
      OnePass(k, maps, n);
    }
  }

  lemma OnePass(x: string, maps: seq<SymbolMap>, n: nat)
    requires n < |maps|
    ensures Passed(x, maps[..n + 1]) == Lookup(maps[n], Passed(x, maps[..n]))
  {
    assert maps[..n + 1][..n] == maps[..n];
  }

  lemma PassedInjective(x: string, y: string, maps: seq<SymbolMap>, n: nat)
    requires n <= |maps| && Sound(maps) && Clean(x, maps) && Clean(y, maps)
    requires Passed(x, maps[..n]) == Passed(y, maps[..n])
    ensures x == y
  {
    PassedIs(x, maps, n);
    PassedIs(y, maps, n);
  }

  /** What a shortened name can still become. */
  lemma NextPass(x: string, maps: seq<SymbolMap>, n: nat)
    requires n < |maps| && Sound(maps) && Clean(x, maps)
    ensures var a := Passed(x, maps[..n]);
      && Passed(x, maps[..n + 1]) == Lookup(maps[n], a) && Settled(maps[n], Lookup(maps[n], a))
      && (Lookup(maps[n], a) != a ==> a == x && x in maps[n] && Lookup(maps[n], a) == maps[n][x])
  {
    PassedIs(x, maps, n);
    assert maps[..n + 1][..n] == maps[..n];
    var a := Passed(x, maps[..n]);
    if a in maps[n] {
      assert maps[n][a] !in maps[n];
    }
  }

  /** A name changed by a pass is not there before it. */
  lemma ChangedIsNew(x: string, y: string, maps: seq<SymbolMap>, n: nat)
    requires n < |maps| && Sound(maps) && Clean(x, maps) && Clean(y, maps)
    requires Lookup(maps[n], Passed(x, maps[..n])) == Passed(y, maps[..n])
    ensures Lookup(maps[n], Passed(x, maps[..n])) == Passed(x, maps[..n])
  {
    NextPass(x, maps, n);
    PassedIs(y, maps, n);
  }

  /** A field of a half-compressed document comes from one original field. */
  lemma CompressedFrom(doc: Doc, cur: Doc, maps: seq<SymbolMap>, n: nat, a: string) returns (x: string)
    requires n <= |maps| && IsRenamed(doc, cur, maps[..n]) && a in cur
    ensures x in doc && Passed(x, maps[..n]) == a && cur[a] == Passed(doc[x], maps[..n])
  {
    assert HasSource(doc, maps[..n], a);
    x :| x in doc && Passed(x, maps[..n]) == a;
    assert FieldMoved(doc, cur, maps[..n], x);
  }

  /** The n-th pass of a compression is in order. */
  lemma CompressPassOk(doc: Doc, cur: Doc, maps: seq<SymbolMap>, n: nat)
    requires n < |maps| && Ready(doc, maps) && IsRenamed(doc, cur, maps[..n])
    ensures PassOk(cur, maps[n])
  {
    hide Sound, Clean, IsRenamed, Lookup, Passed;
    forall a, b | Collide(cur, maps[n], a, b) ensures a == b {
      var x := CompressedFrom(doc, cur, maps, n, a);
      var y := CompressedFrom(doc, cur, maps, n, b);
      NextPass(x, maps, n);
      NextPass(y, maps, n);
      PassedInjective(x, y, maps, n + 1);
    }
    forall a | a in cur ensures FieldSettles(cur, maps[n], a) {
      var x := CompressedFrom(doc, cur, maps, n, a);
      NextPass(x, maps, n);
      NextPass(doc[x], maps, n);
      if Lookup(maps[n], a) in cur {
        var y := CompressedFrom(doc, cur, maps, n, Lookup(maps[n], a));
        ChangedIsNew(x, y, maps, n);
      }
    }
  }

  /* ---------- the way back ---------- */

  predicate ShortField(doc: Doc, mid: Doc, names: map<string, string>, x: string) {
    x in doc && x in names && names[x] in mid
  }

  /** `mid` has the document's fields under the names that `names` gives; keys and texts are shortened, or not. */
  ghost predicate IsShortened(doc: Doc, mid: Doc, maps: seq<SymbolMap>, names: map<string, string>) {
    && names.Keys == doc.Keys
    && (forall x {:trigger ShortField(doc, mid, names, x)} :: x in doc ==>
          ShortField(doc, mid, names, x) && Shortened(x, names[x], maps) && Shortened(doc[x], mid[names[x]], maps))
    && mid.Keys <= names.Values
  }

  lemma RenamedIsShortened(doc: Doc, mid: Doc, maps: seq<SymbolMap>, names: map<string, string>)
    requires Sound(maps) && IsRenamed(doc, mid, maps)
    requires names == map x | x in doc :: Passed(x, maps)
    ensures IsShortened(doc, mid, maps, names)
  {
    hide Sound, Passed;
    forall x | x in doc
      ensures ShortField(doc, mid, names, x) && Shortened(x, names[x], maps) && Shortened(doc[x], mid[names[x]], maps)
    {
      assert FieldMoved(doc, mid, maps, x);
      PassedIsShortened(x, maps);
      PassedIsShortened(doc[x], maps);
    }
    forall y | y in mid ensures y in names.Values {
      assert HasSource(doc, maps, y);
      var x :| x in doc && Passed(x, maps) == y;
      assert names[x] == y;
    }
  }

  lemma CleanIsNoSymbol(x: string, maps: seq<SymbolMap>, revs: seq<SymbolMap>, n: nat)
    requires n < |revs| && Clean(x, maps) && Reversed(revs, maps)
    ensures x !in revs[n]
  {
    if x in revs[n] {
      NamedIsSymbol(x, maps, revs, n);
    }
  }

  lemma NamedIsSymbol(x: string, maps: seq<SymbolMap>, revs: seq<SymbolMap>, n: nat)
    requires n < |revs| && Reversed(revs, maps) && x in revs[n]
    ensures !Clean(x, maps)
  {
    assert maps[n][revs[n][x]] == x;
  }

  lemma NextReturn(x: string, y: string, maps: seq<SymbolMap>, revs: seq<SymbolMap>, n: nat)
    requires n < |revs| && Sound(maps) && Clean(x, maps) && Reversed(revs, maps) && Shortened(x, y, maps)
    ensures var a := Passed(y, revs[..n]);
      && Passed(y, revs[..n + 1]) == Lookup(revs[n], a) && Settled(revs[n], Lookup(revs[n], a))
      && (Lookup(revs[n], a) != a ==> Lookup(revs[n], a) == x)
  {
    ReturningIs(x, y, maps, revs, n);
    ReturningIs(x, y, maps, revs, n + 1);
    OnePass(y, revs, n);
    CleanIsNoSymbol(x, maps, revs, n);
  }

  /** What a name is at any stage of the way back is again a shortened form of it. */
  lemma ReturningIsShortened(x: string, y: string, maps: seq<SymbolMap>, revs: seq<SymbolMap>, n: nat)
    requires n <= |revs| && Sound(maps) && Clean(x, maps) && Reversed(revs, maps) && Shortened(x, y, maps)
    ensures Shortened(x, Passed(y, revs[..n]), maps)
  {
    ReturningIs(x, y, maps, revs, n);
  }

  lemma ReturningInjective(x: string, y: string, z: string, w: string, maps: seq<SymbolMap>, revs: seq<SymbolMap>,
      n: nat)
    requires n <= |revs| && Sound(maps) && Clean(x, maps) && Clean(z, maps) && Reversed(revs, maps)
    requires Shortened(x, y, maps) && Shortened(z, w, maps) && Passed(y, revs[..n]) == Passed(w, revs[..n])
    ensures x == z
  {
    ReturningIsShortened(x, y, maps, revs, n);
    ReturningIsShortened(z, w, maps, revs, n);
    ShortenedInjective(x, z, Passed(y, revs[..n]), maps);
  }

  /** A name restored by a pass is not there before it, unless it is the same field's. */
  lemma RestoredIsNew(x: string, y: string, z: string, w: string, maps: seq<SymbolMap>, revs: seq<SymbolMap>, n: nat)
    requires n < |revs| && Sound(maps) && Clean(x, maps) && Clean(z, maps) && Reversed(revs, maps)
    requires Shortened(x, y, maps) && Shortened(z, w, maps) && (x == z ==> y == w)
    requires Lookup(revs[n], Passed(y, revs[..n])) == Passed(w, revs[..n])
    ensures Lookup(revs[n], Passed(y, revs[..n])) == Passed(y, revs[..n])
  {
    NextReturn(x, y, maps, revs, n);
    if Lookup(revs[n], Passed(y, revs[..n])) != Passed(y, revs[..n]) {
      ReturningIsShortened(z, w, maps, revs, n);
      assert Shortened(x, x, maps);
      ShortenedInjective(x, z, x, maps);
    }
  }

  /** A field of a half-restored document comes from one original field. */
  lemma RestoredFrom(doc: Doc, mid: Doc, cur: Doc, maps: seq<SymbolMap>, names: map<string, string>,
      revs: seq<SymbolMap>, n: nat, a: string)
    returns (x: string)
    requires n <= |revs| && IsShortened(doc, mid, maps, names) && IsRenamed(mid, cur, revs[..n]) && a in cur
    ensures ShortField(doc, mid, names, x)
    ensures Shortened(x, names[x], maps) && Shortened(doc[x], mid[names[x]], maps)
    ensures Passed(names[x], revs[..n]) == a && cur[a] == Passed(mid[names[x]], revs[..n])
  {
    assert HasSource(mid, revs[..n], a);
    var y :| y in mid && Passed(y, revs[..n]) == a;
    assert FieldMoved(mid, cur, revs[..n], y);
    assert y in names.Values;
    x :| x in names && names[x] == y;
    assert ShortField(doc, mid, names, x);
  }

  /** The n-th pass of a decompression is in order. */
  lemma DecompressPassOk(doc: Doc, mid: Doc, cur: Doc, maps: seq<SymbolMap>, names: map<string, string>,
      revs: seq<SymbolMap>, n: nat)
    requires n < |revs| && Ready(doc, maps) && Reversed(revs, maps)
    requires IsShortened(doc, mid, maps, names) && IsRenamed(mid, cur, revs[..n])
    ensures PassOk(cur, revs[n])
  {
    hide Sound, Clean, Reversed, IsRenamed, IsShortened, Shortened, Lookup, Passed;
    forall a, b | Collide(cur, revs[n], a, b) ensures a == b {
      var x := RestoredFrom(doc, mid, cur, maps, names, revs, n, a);
      var z := RestoredFrom(doc, mid, cur, maps, names, revs, n, b);
      NextReturn(x, names[x], maps, revs, n);
      NextReturn(z, names[z], maps, revs, n);
      ReturningInjective(x, names[x], z, names[z], maps, revs, n + 1);
    }
    forall a | a in cur ensures FieldSettles(cur, revs[n], a) {
      var x := RestoredFrom(doc, mid, cur, maps, names, revs, n, a);
      NextReturn(x, names[x], maps, revs, n);
      NextReturn(doc[x], mid[names[x]], maps, revs, n);
      if Lookup(revs[n], a) in cur {
        var z := RestoredFrom(doc, mid, cur, maps, names, revs, n, Lookup(revs[n], a));
        RestoredIsNew(x, names[x], z, names[z], maps, revs, n);
      }
    }
  }

  /** Restoring a shortened document gives the document. */
  lemma DocumentRoundTrip(doc: Doc, mid: Doc, out: Doc, maps: seq<SymbolMap>, names: map<string, string>,
      revs: seq<SymbolMap>)
    requires Ready(doc, maps) && Reversed(revs, maps) && |revs| == |maps|
    requires IsShortened(doc, mid, maps, names) && IsRenamed(mid, out, revs)
    ensures out == doc
  {
    hide Sound, Clean, Reversed, Passed, Shortened;
    forall k | k in doc ensures k in out && out[k] == doc[k] {
      assert ShortField(doc, mid, names, k);
      NameRoundTrip(k, names[k], maps, revs);
      NameRoundTrip(doc[k], mid[names[k]], maps, revs);
      assert FieldMoved(mid, out, revs, names[k]);
    }
    forall k' | k' in out ensures k' in doc {
      assert HasSource(mid, revs, k');
      var y :| y in mid && Passed(y, revs) == k';
      assert y in names.Values;
      var x :| x in names && names[x] == y;
      assert ShortField(doc, mid, names, x);
      NameRoundTrip(x, y, maps, revs);
    }
  }
}
