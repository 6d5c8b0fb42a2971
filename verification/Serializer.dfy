/** The serializer: its symbol maps, and the loops that compress, restore, stringify and parse a document. */
module Serializer {
  import opened Options
  import Values
  import Symbols
  import Text
  import opened Compression

  type Document = map<string, Values.Value>

  /** The maps of those names that have one. */
  function Selected(symKeys: map<string, SymbolMap>, ids: seq<string>): seq<SymbolMap> {
    if |ids| == 0 then [] else
      var rest := Selected(symKeys, ids[..|ids| - 1]);
      var id := ids[|ids| - 1];
      if id in symKeys then rest + [symKeys[id]] else rest
  }

  lemma {:induction false} SelectedGrows(symKeys: map<string, SymbolMap>, ids: seq<string>, n: nat)
    requires n <= |ids|
    ensures Selected(symKeys, ids[..n]) <= Selected(symKeys, ids)
    decreases |ids|
  {
    if n < |ids| {
      SelectedGrows(symKeys, ids[..|ids| - 1], n);
      assert ids[..|ids| - 1][..n] == ids[..n];
    } else {
      assert ids[..n] == ids;
    }
  }

  /** One map turned round; where two paths share a symbol, one of them is kept. */
  ghost predicate Reverses(rev: SymbolMap, m: SymbolMap) {
    && (forall s {:trigger s in rev} :: s in rev ==> rev[s] in m && m[rev[s]] == s)
    && (forall p {:trigger p in m} :: p in m ==> m[p] in rev)
  }

  class SerializerService {
    var symKeys: map<string, SymbolMap>
    var symReverseKeys: map<string, SymbolMap>
    var symValMaps: Values.Table
    var symValReverseMaps: Values.Table

    ghost predicate Valid()
      reads this
    {
      && (forall id {:trigger id in symReverseKeys} :: id in symReverseKeys ==>
            id in symKeys && Reverses(symReverseKeys[id], symKeys[id]))
      && Values.Reverses(symValReverseMaps, symValMaps)
    }

    constructor ()
      ensures Valid() && symKeys == map[] && symValMaps == map[]
    {
      symKeys, symReverseKeys, symValMaps, symValReverseMaps := map[], map[], map[], map[];
    }

    /** Turns a map round entry by entry, in whatever order the entries come. */
    static method ReverseMap(m: SymbolMap) returns (rev: SymbolMap)
      ensures Reverses(rev, m)
    {
      rev := map[];
      var todo := m.Keys;
      while todo != {}
        invariant todo <= m.Keys
        invariant forall s {:trigger s in rev} :: s in rev ==> rev[s] in m && m[rev[s]] == s
        invariant forall p {:trigger p in m} :: p in m && p !in todo ==> m[p] in rev
        decreases |todo|
      {
        var key :| key in todo;
        rev := rev[m[key] := key];
        todo := todo - {key};
      }
    }

    method ResetSymbols(symKeys: map<string, SymbolMap>, symVals: Values.Table)
      modifies this
      ensures Valid() && this.symKeys == symKeys && symValMaps == symVals
    {
      this.symKeys := symKeys;
      symReverseKeys := map[];
      symValMaps := symVals;
      symValReverseMaps := ReverseMap(symVals);
    }

    method GetReverseKeyMap(id: string) returns (rev: SymbolMap)
      requires Valid() && id in symKeys
      modifies this`symReverseKeys
      ensures Valid() && Reverses(rev, symKeys[id])
    {
      if id in symReverseKeys {
        rev := symReverseKeys[id];
      } else {
        rev := ReverseMap(symKeys[id]);
        symReverseKeys := symReverseKeys[id := rev];
      }
    }

    /** One map's pass over the fields. The engine visits each name at most once, in any order; a name that
        the loop itself puts in may or may not be visited. */
    static method RenamePass(document: Doc, m: SymbolMap) returns (result: Doc)
      ensures PassOk(document, m) ==> HalfRenamed(document, result, m, {})
    {
      hide PassOk, HalfRenamed;
      result := document;
      var unseen := document.Keys + m.Values;
      var pending := document.Keys;
      NothingDone(document, m);
      while pending != {}
        invariant pending <= unseen
        invariant PassOk(document, m) ==> HalfRenamed(document, result, m, pending)
        decreases |unseen|
      {
        var key :| key in pending;
        ghost var before := result;
        ghost var waiting := pending;
        unseen := unseen - {key};
        pending := pending - {key};
        if key in result {
          var safeKey := Lookup(m, key);
          var value := result[key];
          var safeValue := Lookup(m, value);
          if safeKey != key || safeValue != value {
            result := result[safeKey := safeValue];
            if safeKey != key {
              result := result - {key};
            }
          }
          assert result == Visited(before, m, key);
          if PassOk(document, m) {
            VisitKeeps(document, before, m, waiting, key);
          }
          if * {
            if safeKey != key && safeKey in unseen {
              if PassOk(document, m) {
                AwaitName(document, result, m, pending, safeKey);
              }
              pending := pending + {safeKey};
            }
          }
        } else if PassOk(document, m) {
          AbsentKeeps(document, result, m, waiting, key);
        }
      }
    }

    /** The document with every name shortened by the maps selected, one pass after another. */
    method Compress(document: Doc, ids: seq<string>) returns (result: Doc)
      ensures Ready(document, Selected(symKeys, ids)) ==> IsRenamed(document, result, Selected(symKeys, ids))
      ensures |symKeys| == 0 ==> result == document
    {
      ghost var maps := Selected(symKeys, ids);
      ghost var ready := Ready(document, maps);
      NothingPassed(document, maps);
      if |symKeys| == 0 {
        NothingSelected(symKeys, ids);
        assert maps[..0] == maps;
        return document;
      }
      result := document;
      var i := 0;
      while i < |ids|
        invariant 0 <= i <= |ids|
        invariant Selected(symKeys, ids[..i]) <= maps
        invariant ready ==> IsRenamed(document, result, Selected(symKeys, ids[..i]))
      {
        SelectedNext(symKeys, ids, i);
        if ids[i] in symKeys {
          ghost var n := |Selected(symKeys, ids[..i])|;
          ghost var before := result;
          assert maps[..n] == Selected(symKeys, ids[..i]) && maps[..n + 1] == Selected(symKeys, ids[..i + 1]);
          assert maps[n] == maps[..n + 1][n] == symKeys[ids[i]];
          result := RenamePass(result, symKeys[ids[i]]);
          if ready {
            CompressPassOk(document, before, maps, n);
            PassOn(document, before, result, maps, n);
          }
        }
        i := i + 1;
      }
      assert ids[..i] == ids;
    }

    /** Gives back any document `original` that was compressed to this one by the same maps, or whose fields
        were shortened, one by one and each under the name in `names`, by some of them. */
    method Decompress(document: Doc, ids: seq<string>, ghost original: Doc, ghost names: map<string, string>)
      returns (result: Doc)
      requires Valid()
      modifies this`symReverseKeys
      ensures Valid()
      ensures Ready(original, Selected(symKeys, ids)) && IsShortened(original, document, Selected(symKeys, ids), names)
          ==> result == original
    {
      hide Ready, IsShortened;
      ghost var maps := Selected(symKeys, ids);
      ghost var ready := Ready(original, maps) && IsShortened(original, document, maps, names);
      ghost var revs: seq<SymbolMap> := [];
      NothingPassed(document, revs);
      if |symKeys| == 0 {
        NothingSelected(symKeys, ids);
        if ready {
          assert maps == revs && revs[..0] == revs;
          DocumentRoundTrip(original, document, document, maps, names, revs);
        }
        return document;
      }
      result := document;
      var i := 0;
      while i < |ids|
        invariant 0 <= i <= |ids| && Valid()
        invariant Selected(symKeys, ids[..i]) <= maps 
        invariant Reversed(revs, maps) && |revs| == |Selected(symKeys, ids[..i])|
        invariant ready ==> IsRenamed(document, result, revs)
      {
        SelectedNext(symKeys, ids, i);
        if ids[i] in symKeys {
          ghost var n := |revs|;
          ghost var before := result;
          assert maps[n] == Selected(symKeys, ids[..i + 1])[n] == symKeys[ids[i]];
          assert revs[..n] == revs;
          var rev := GetReverseKeyMap(ids[i]);
          result := RenamePass(result, rev);
          ReversedNext(revs, maps, rev);
          revs := revs + [rev];
          assert revs[..n + 1] == revs;
          if ready {
            RestorePass(original, document, before, result, maps, names, revs, n);
          }
        }
        i := i + 1;
      }
      assert ids[..i] == ids;
      if ready {
        DocumentRoundTrip(original, document, result, maps, names, revs);
      }
    }

    method Stringify(document: Document) returns (result: Doc)
      ensures Stringified(document, result, symValReverseMaps)
      ensures forall k {:trigger document[k]} :: k in document ==>
        match document[k]
        case Undefined => k !in result
        case Null => Stores(result, symValReverseMaps, k, "/n")
        case Bool(b) => Stores(result, symValReverseMaps, k, if b then "/t" else "/f")
        case Num(n) => Stores(result, symValReverseMaps, k, "/d" + Text.Numeral(n))
        case NotInteger(text) => Stores(result, symValReverseMaps, k, "/d" + text)
        case Obj(json) => Stores(result, symValReverseMaps, k, "/s" + json)
        case Str(s) => if s == "" then k !in result else Stores(result, symValReverseMaps, k, s)
    {
      result := map[];
      var todo := document.Keys;
      while todo != {}
        invariant todo <= document.Keys && result.Keys <= document.Keys - todo
        invariant forall k {:trigger StringifiedAt(document, result, symValReverseMaps, k)} ::
          k in document && k !in todo ==>
          StringifiedAt(document, result, symValReverseMaps, k)
        decreases |todo|
      {
        var key :| key in todo;
        ghost var before := result;
        var value := Values.ToString(document[key]);
        if value.Some? && value.value != "" {
          var text := value.value;
          if Values.IsColonPair(text, 0) {
            text := ":" + text;
          } else if text in symValReverseMaps {
            text := symValReverseMaps[text];
          }
          result := result[key := text];
        }
        todo := todo - {key};
        forall k | k in document && k !in todo ensures StringifiedAt(document, result, symValReverseMaps, k) {
          assert k != key ==> StringifiedAt(document, before, symValReverseMaps, k);
        }
      }
      assert forall k :: k in document ==> StringifiedAt(document, result, symValReverseMaps, k);
    }

    method Parse(document: Doc) returns (result: Document)
      ensures Parsed(document, result, symValMaps)
    {
      result := map[];
      var todo := document.Keys;
      while todo != {}
        invariant todo <= document.Keys && result.Keys == document.Keys - todo
        invariant forall k {:trigger k in result} :: k in result ==>
            result[k] == Values.Restore(document[k], symValMaps)
        decreases |todo|
      {
        var key :| key in todo;
        var value := document[key];
        if Values.IsColonPair(value, 1) {
          result := result[key := Values.Str(value[1..])];
        } else {
          if |value| == 2 && value in symValMaps {
            value := symValMaps[value];
          }
          result := result[key := Values.FromString(value)];
        }
        todo := todo - {key};
      }
    }

    method Package(document: Document, ids: seq<string>) returns (result: Doc, ghost flat: Doc)
      ensures Stringified(document, flat, symValReverseMaps)
      ensures Ready(flat, Selected(symKeys, ids)) ==> IsRenamed(flat, result, Selected(symKeys, ids))
    {
      var flatDocument := Stringify(document);
      flat := flatDocument;
      result := Compress(flatDocument, ids);
    }

    method Unpackage(document: Doc, ids: seq<string>, ghost flat: Doc, ghost names: map<string, string>)
      returns (result: Document)
      requires Valid()
      modifies this`symReverseKeys
      ensures Valid()
      ensures Ready(flat, Selected(symKeys, ids)) && IsShortened(flat, document, Selected(symKeys, ids), names)
          ==> Parsed(flat, result, symValMaps)
    {
      var restored := Decompress(document, ids, flat, names);
      result := Parse(restored);
    }

    /** New symbols for the proposed values that have none, as many as there are symbols left. */
    static method FilterSymVals(startIndex: nat, maxIndex: int, existing: Values.Table, proposed: seq<string>)
      returns (added: Values.Table)
      ensures added == Values.FilterSymVals(proposed, startIndex, maxIndex, existing.Values, map[])
    {
      added := map[];
      var known := existing.Values;
      var next: nat := startIndex;
      var i := 0;
      assert proposed[0..] == proposed;
      while i < |proposed|
        invariant 0 <= i <= |proposed|
        invariant Values.FilterSymVals(proposed, startIndex, maxIndex, existing.Values, map[])
               == Values.FilterSymVals(proposed[i..], next, maxIndex, known, added)
      {
        assert proposed[i..][1..] == proposed[i + 1..];
        if proposed[i] !in known {
          if next > maxIndex {
            return;
          }
          var symbol := Symbols.GetSymVal(next);
          if symbol.None? {
            return;
          }
          next := next + 1;
          added := added[symbol.value := proposed[i]];
          known := known + {proposed[i]};
        }
        i := i + 1;
      }
    }
  }

  function Get(flat: Doc, k: string): Option<string> {
    if k in flat then Some(flat[k]) else None
  }

  function Value(document: Document, k: string): Values.Value {
    if k in document then document[k] else Values.Undefined
  }

  /** The text under `k`: behind one more colon if it looks like a symbol, as a symbol if it has one, or as it is. */
  predicate Stores(flat: Doc, reverse: Values.Table, k: string, text: string) {
    k in flat && flat[k] == if Values.IsColonPair(text, 0) then ":" + text else if text in reverse then reverse[text]
      else text
  }

  predicate StringifiedAt(document: Document, flat: Doc, reverse: Values.Table, k: string) {
    k in document && Get(flat, k) == Values.Field(document[k], reverse)
  }

  ghost predicate Stringified(document: Document, flat: Doc, reverse: Values.Table) {
    && flat.Keys <= document.Keys
    && forall k {:trigger StringifiedAt(document, flat, reverse, k)} :: k in document ==>
        StringifiedAt(document, flat, reverse, k)
  }

  ghost predicate Parsed(flat: Doc, document: Document, table: Values.Table) {
    && document.Keys == flat.Keys
    && forall k {:trigger k in document} :: k in document ==> document[k] == Values.Restore(flat[k], table)
  }

  /** Parsing what was stringified gives each field's value back, exactly for the storable ones. */
  lemma ParseUndoesStringify(document: Document, flat: Doc, out: Document, table: Values.Table, reverse: Values.Table,
      k: string)
    requires Stringified(document, flat, reverse) && Parsed(flat, out, table)
    requires Values.Reverses(reverse, table) && Values.SymbolsOnly(table) && k in document
        && Values.WellFormed(document[k])
    ensures Value(out, k) == document[k] <==> Values.Storable(document[k])
  {
    assert StringifiedAt(document, flat, reverse, k);
    Values.FieldRoundTrip(document[k], table, reverse);
    assert Value(out, k) == Values.Read(Get(flat, k), table);
  }

  lemma AbsentKeeps(doc: Doc, doc': Doc, m: SymbolMap, pending: set<string>, key: string)
    requires HalfRenamed(doc, doc', m, pending) && key !in doc'
    ensures HalfRenamed(doc, doc', m, pending - {key})
  {
    assert key in doc && key in pending ==> FieldWaits(doc, doc', key);
    SkipName(doc, doc', m, pending, key);
  }

  lemma {:induction false} NothingSelected(symKeys: map<string, SymbolMap>, ids: seq<string>)
    requires |symKeys| == 0
    ensures Selected(symKeys, ids) == []
    decreases |ids|
  {
    if |ids| > 0 {
      NothingSelected(symKeys, ids[..|ids| - 1]);
      assert symKeys.Keys == {};
    }
  }

  lemma SelectedNext(symKeys: map<string, SymbolMap>, ids: seq<string>, i: nat)
    requires i < |ids|
    ensures var before := Selected(symKeys, ids[..i]);
      && Selected(symKeys, ids[..i + 1]) == (if ids[i] in symKeys then before + [symKeys[ids[i]]] else before)
      && before <= Selected(symKeys, ids) && Selected(symKeys, ids[..i + 1]) <= Selected(symKeys, ids)
  {
    assert ids[..i + 1][..i] == ids[..i];
    SelectedGrows(symKeys, ids, i);
    SelectedGrows(symKeys, ids, i + 1);
  }

  lemma ReversedNext(revs: seq<SymbolMap>, maps: seq<SymbolMap>, rev: SymbolMap)
    requires |revs| < |maps| && Reversed(revs, maps) && Reverses(rev, maps[|revs|])
    ensures Reversed(revs + [rev], maps)
  {
  }

  /** One pass of a decompression. */
  lemma RestorePass(doc: Doc, mid: Doc, before: Doc, after: Doc, maps: seq<SymbolMap>, names: map<string, string>,
      revs: seq<SymbolMap>, n: nat)
    requires n < |revs| && Ready(doc, maps) && Reversed(revs, maps)
    requires IsShortened(doc, mid, maps, names) && IsRenamed(mid, before, revs[..n])
    requires PassOk(before, revs[n]) ==> HalfRenamed(before, after, revs[n], {})
    ensures IsRenamed(mid, after, revs[..n + 1])
  {
    DecompressPassOk(doc, mid, before, maps, names, revs, n);
    PassOn(mid, before, after, revs, n);
  }

  /** Compressing and decompressing with the same maps, whatever order either loop visits the fields in. */
  method CompressThenDecompress(serializer: SerializerService, document: Doc, ids: seq<string>) returns (result: Doc)
    requires serializer.Valid()
    modifies serializer`symReverseKeys
    ensures Ready(document, Selected(serializer.symKeys, ids)) ==> result == document
  {
    ghost var maps := Selected(serializer.symKeys, ids);
    var compressed := serializer.Compress(document, ids);
    ghost var names := map x | x in document :: Passed(x, maps);
    if Ready(document, maps) {
      RenamedIsShortened(document, compressed, maps, names);
    }
    result := serializer.Decompress(compressed, ids, document, names);
  }
}
