/** A job's hash as its readers and writers see it: a map from paths to values, behind symbols and tagged text. */
module JobState {
  import opened Options
  import Allocator
  import Symbols
  import Text
  import Values
  import opened Compression
  import opened Serializer

  type Tables = map<string, SymbolMap>

  function TableAt(tables: Tables, name: string): SymbolMap {
    if name in tables then tables[name] else map[]
  }

  /** The symbol sets of the names given; a name without one has an empty set. */
  function SymKeys(tables: Tables, ids: seq<string>): map<string, SymbolMap> {
    map id | id in ids :: TableAt(tables, id)
  }

  function Maps(tables: Tables, ids: seq<string>): seq<SymbolMap> {
    Selected(SymKeys(tables, ids), ids)
  }

  predicate Names(tables: Tables, n: string, p: string) {
    n in tables && p in tables[n]
  }

  /** Symbols are three letters, paths are not, and no two paths of the app share a symbol. */
  ghost predicate AppSound(tables: Tables) {
    && (forall n, p {:trigger Names(tables, n, p)} :: Names(tables, n, p) ==>
          Symbols.IsSymKey(tables[n][p]) && !Symbols.IsSymKey(p) && p != "" && p != ":")
    && (forall n, m, p, q {:trigger Names(tables, n, p), Names(tables, m, q)} ::
          Names(tables, n, p) && Names(tables, m, q) && tables[n][p] == tables[m][q] ==> n == m && p == q)
  }

  /** What deployments allocate is sound, as long as no path looks like a symbol. */
  lemma AllocatedTablesAreSound(t: Allocator.Trace, i: nat)
    requires Allocator.IsRun(t) && i < |t.stores|
    requires forall n, p {:trigger Names(t.stores[i].tables, n, p)} :: Names(t.stores[i].tables, n, p) ==>
      !Symbols.IsSymKey(p) && p != "" && p != ":"
    ensures AppSound(t.stores[i].tables)
  {
    var tables := t.stores[i].tables;
    forall n, p | Names(tables, n, p) ensures Symbols.IsSymKey(tables[n][p]) {
      Allocator.NoRangeSpills(t, i, n, p);
    }
    forall n, m, p, q | Names(tables, n, p) && Names(tables, m, q) && tables[n][p] == tables[m][q]
      ensures n == m && p == q
    {
      Allocator.SymbolsAreUnique(t, i, n, p, m, q);
    }
  }

  /** Among the names one job uses, a path belongs to one. */
  ghost predicate Coherent(tables: Tables, names: set<string>) {
    forall n, m, p {:trigger Names(tables, n, p), Names(tables, m, p)} ::
      n in names && m in names && Names(tables, n, p) && Names(tables, m, p) ==> n == m
  }

  ghost predicate Covered(tables: Tables, ids: seq<string>, p: string) {
    exists n {:trigger Names(tables, n, p)} :: n in ids && Names(tables, n, p)
  }

  /** No table has this text as a symbol. */
  ghost predicate NoSymbol(tables: Tables, text: string) {
    forall n, p {:trigger Names(tables, n, p)} :: Names(tables, n, p) ==> tables[n][p] != text
  }

  lemma {:induction false} SelectedAre(symKeys: map<string, SymbolMap>, ids: seq<string>, i: nat) returns (id: string)
    requires i < |Selected(symKeys, ids)|
    ensures id in ids && id in symKeys && Selected(symKeys, ids)[i] == symKeys[id]
    decreases |ids|
  {
    var last := ids[|ids| - 1];
    var rest := Selected(symKeys, ids[..|ids| - 1]);
    if i < |rest| {
      id := SelectedAre(symKeys, ids[..|ids| - 1], i);
      assert id in ids;
    } else {
      id := last;
    }
  }

  lemma {:induction false} SelectedHas(symKeys: map<string, SymbolMap>, ids: seq<string>, id: string) returns (i: nat)
    requires id in ids && id in symKeys
    ensures i < |Selected(symKeys, ids)| && Selected(symKeys, ids)[i] == symKeys[id]
    decreases |ids|
  {
    var last := ids[|ids| - 1];
    if id == last {
      i := |Selected(symKeys, ids[..|ids| - 1])|;
    } else {
      assert ids == ids[..|ids| - 1] + [last];
      i := SelectedHas(symKeys, ids[..|ids| - 1], id);
    }
  }

  /** The n-th map selected is the table of one of the names. */
  lemma MapsAre(tables: Tables, ids: seq<string>, i: nat) returns (n: string)
    requires i < |Maps(tables, ids)|
    ensures n in ids && Maps(tables, ids)[i] == TableAt(tables, n)
  {
    n := SelectedAre(SymKeys(tables, ids), ids, i);
  }

  lemma MapsHave(tables: Tables, ids: seq<string>, n: string) returns (i: nat)
    requires n in ids
    ensures i < |Maps(tables, ids)| && Maps(tables, ids)[i] == TableAt(tables, n)
  {
    i := SelectedHas(SymKeys(tables, ids), ids, n);
  }

  lemma MapsAreSound(tables: Tables, ids: seq<string>)
    requires AppSound(tables)
    ensures Sound(Maps(tables, ids))
  {
    hide Maps;
    var maps := Maps(tables, ids);
    forall i, j, p | 0 <= i < |maps| && 0 <= j < |maps| && p in maps[i] ensures maps[i][p] !in maps[j] {
      var n := MapsAre(tables, ids, i);
      var m := MapsAre(tables, ids, j);
      assert Names(tables, n, p);
      assert maps[i][p] in maps[j] ==> Names(tables, m, maps[i][p]);
    }
    forall i, j, p, q | 0 <= i < |maps| && 0 <= j < |maps| && p in maps[i] && q in maps[j] && maps[i][p] == maps[j][q]
      ensures p == q
    {
      var n := MapsAre(tables, ids, i);
      var m := MapsAre(tables, ids, j);
      assert Names(tables, n, p) && Names(tables, m, q);
    }
    forall i, p | 0 <= i < |maps| && p in maps[i] ensures p != "" && maps[i][p] != "" {
      var n := MapsAre(tables, ids, i);
      assert Names(tables, n, p);
    }
  }

  lemma NoSymbolIsClean(tables: Tables, ids: seq<string>, text: string)
    requires NoSymbol(tables, text)
    ensures Clean(text, Maps(tables, ids))
  {
    hide Maps;
    var maps := Maps(tables, ids);
    forall i, p | 0 <= i < |maps| && p in maps[i] ensures maps[i][p] != text {
      var n := MapsAre(tables, ids, i);
      assert Names(tables, n, p);
    }
  }

  lemma PathIsNoSymbol(tables: Tables, n: string, p: string)
    requires AppSound(tables) && Names(tables, n, p)
    ensures NoSymbol(tables, p)
  {
  }

  /** The field under which a covered path is stored, whoever of the job's writers or readers names it. */
  lemma FieldOfPath(tables: Tables, names: set<string>, ids: seq<string>, n: string, p: string)
    requires AppSound(tables) && Coherent(tables, names) && (forall id :: id in ids ==> id in names)
    requires n in names && Names(tables, n, p) && Covered(tables, ids, p)
    ensures Passed(p, Maps(tables, ids)) == tables[n][p]
  {
    hide Maps;
    var maps := Maps(tables, ids);
    MapsAreSound(tables, ids);
    assert maps[..|maps|] == maps;
    PassedIs(p, maps, |maps|);
    var m :| m in ids && Names(tables, m, p);
    assert m == n;
    var i := MapsHave(tables, ids, m);
    assert p in maps[i];
    var j :| 0 <= j < |maps| && p in maps[j] && Passed(p, maps) == maps[j][p];
    var k := MapsAre(tables, ids, j);
    assert Names(tables, k, p);
  }

  /* ---------- what is stored for a value ---------- */

  /** Values that survive storage: the storable ones, and no string spelled like a symbol. */
  ghost predicate Writable(tables: Tables, v: Values.Value) {
    Values.WellFormed(v) && Values.Storable(v) && (v.Str? ==> NoSymbol(tables, v.s))
  }

  lemma TaggedIsNoSymbol(tables: Tables, text: string)
    requires AppSound(tables) && |text| > 0 && !Symbols.IsLetter(text[0])
    ensures NoSymbol(tables, text)
  {
    forall n, p | Names(tables, n, p) ensures tables[n][p] != text {
      assert Symbols.IsSymKey(tables[n][p]);
    }
  }

  lemma ShortIsNoSymbol(tables: Tables, text: string)
    requires AppSound(tables) && |text| == 2
    ensures NoSymbol(tables, text)
  {
    forall n, p | Names(tables, n, p) ensures tables[n][p] != text {
      assert Symbols.IsSymKey(tables[n][p]);
    }
  }

  lemma FieldIsNoSymbol(tables: Tables, v: Values.Value, table: Values.Table, reverse: Values.Table)
    requires AppSound(tables) && Writable(tables, v) && Values.Field(v, reverse).Some?
    requires Values.Reverses(reverse, table) && Values.SymbolsOnly(table)
    ensures NoSymbol(tables, Values.Field(v, reverse).value)
  {
    hide AppSound, NoSymbol;
    var text := Values.ToString(v).value;
    var field := Values.Field(v, reverse).value;
    if Values.IsColonPair(text, 0) {
      assert field[0] == ':';
      TaggedIsNoSymbol(tables, field);
    } else if text in reverse {
      assert Symbols.IsSymVal(field);
      ShortIsNoSymbol(tables, field);
    } else if !v.Str? {
      assert field[0] == '/';
      TaggedIsNoSymbol(tables, field);
    }
  }

  /* ---------- the hash and the plain map behind it ---------- */

  /** The last value written for a path, the text stringified for it, and the names its writer used. */
  datatype Cell = Cell(value: Values.Value, text: string, writer: seq<string>)

  ghost predicate CellOk(tables: Tables, names: set<string>, symVals: Values.Table, hash: Doc, p: string, n: string,
      cell: Cell)
  {
    && n in names && Names(tables, n, p) && tables[n][p] in hash
    && (forall id {:trigger id in cell.writer} :: id in cell.writer ==> id in names)
    && Shortened(cell.text, hash[tables[n][p]], Maps(tables, cell.writer))
    && Values.Restore(cell.text, symVals) == cell.value && NoSymbol(tables, cell.text)
  }

  ghost predicate HasCell(tables: Tables, names: set<string>, symVals: Values.Table, hash: Doc, p: string, cell: Cell) {
    exists n {:trigger Names(tables, n, p)} :: CellOk(tables, names, symVals, hash, p, n, cell)
  }

  predicate FieldOf(tables: Tables, n: string, p: string, f: string) {
    Names(tables, n, p) && tables[n][p] == f
  }

  /** Every field but the status belongs to a path that was written. */
  ghost predicate Owned(tables: Tables, names: set<string>, cells: map<string, Cell>, f: string) {
    f == ":" || exists n, p {:trigger FieldOf(tables, n, p, f)} :: n in names && p in cells && FieldOf(tables, n, p, f)
  }

  ghost predicate Represents(tables: Tables, names: set<string>, symVals: Values.Table, hash: Doc,
      cells: map<string, Cell>)
  {
    && (forall p {:trigger p in cells} :: p in cells ==> HasCell(tables, names, symVals, hash, p, cells[p]))
    && (forall f {:trigger Owned(tables, names, cells, f)} :: f in hash ==> Owned(tables, names, cells, f))
  }

  /** What a write stores: every field that stringifies, under its symbol. */
  ghost function Written(state: Document, flat: Doc, writer: seq<string>): map<string, Cell>
    requires flat.Keys <= state.Keys
  {
    map p | p in flat :: Cell(state[p], flat[p], writer)
  }

  lemma RepresentsIntro(tables: Tables, names: set<string>, symVals: Values.Table, hash: Doc, cells: map<string, Cell>)
    requires forall p {:trigger p in cells} :: p in cells ==> HasCell(tables, names, symVals, hash, p, cells[p])
    requires forall f {:trigger Owned(tables, names, cells, f)} :: f in hash ==> Owned(tables, names, cells, f)
    ensures Represents(tables, names, symVals, hash, cells)
  {
  }

  /** A packaged field is the symbol of one of the paths written. */
  lemma DataField(tables: Tables, names: set<string>, flat: Doc, data: Doc, writer: seq<string>, f: string)
    returns (n: string, p: string)
    requires AppSound(tables) && Coherent(tables, names) && (forall id :: id in writer ==> id in names)
    requires IsRenamed(flat, data, Maps(tables, writer)) && f in data
    requires forall q {:trigger q in flat} :: q in flat ==> Covered(tables, writer, q)
    ensures p in flat && n in names && FieldOf(tables, n, p, f)
  {
    hide Maps;
    assert HasSource(flat, Maps(tables, writer), f);
    p :| p in flat && Passed(p, Maps(tables, writer)) == f;
    assert Covered(tables, writer, p);
    n :| n in writer && Names(tables, n, p);
    FieldOfPath(tables, names, writer, n, p);
  }

  lemma FreshCell(tables: Tables, names: set<string>, symVals: Values.Table, hash': Doc, state: Document, flat: Doc,
      data: Doc,
                  writer: seq<string>, p: string)
    requires AppSound(tables) && Coherent(tables, names) && (forall id :: id in writer ==> id in names)
    requires IsRenamed(flat, data, Maps(tables, writer)) && p in flat && p in state
    requires forall f {:trigger f in data} :: f in data && f != ":" ==> f in hash' && hash'[f] == data[f]
    requires Covered(tables, writer, p) && Values.Restore(flat[p], symVals) == state[p] && NoSymbol(tables, flat[p])
    ensures HasCell(tables, names, symVals, hash', p, Cell(state[p], flat[p], writer))
  {
    hide Maps, NoSymbol, IsRenamed;
    var n :| n in writer && Names(tables, n, p);
    FieldOfPath(tables, names, writer, n, p);
    FieldIsMoved(flat, data, Maps(tables, writer), p);
    MapsAreSound(tables, writer);
    PassedIsShortened(flat[p], Maps(tables, writer));
    assert Symbols.IsSymKey(tables[n][p]);
    assert CellOk(tables, names, symVals, hash', p, n, Cell(state[p], flat[p], writer));
  }

  lemma FieldIsMoved(flat: Doc, data: Doc, maps: seq<SymbolMap>, p: string)
    requires IsRenamed(flat, data, maps) && p in flat
    ensures Passed(p, maps) in data && data[Passed(p, maps)] == Passed(flat[p], maps)
  {
    assert FieldMoved(flat, data, maps, p);
  }

  lemma OldCell(tables: Tables, names: set<string>, symVals: Values.Table, hash: Doc, hash': Doc, cell: Cell,
                flat: Doc, data: Doc, writer: seq<string>, p: string)
    requires AppSound(tables) && Coherent(tables, names) && (forall id :: id in writer ==> id in names)
    requires IsRenamed(flat, data, Maps(tables, writer)) && p !in flat
    requires forall q {:trigger q in flat} :: q in flat ==> Covered(tables, writer, q)
    requires forall f {:trigger f in hash} :: f in hash && f !in data && f != ":" ==> f in hash' && hash'[f] == hash[f]
    requires HasCell(tables, names, symVals, hash, p, cell)
    ensures HasCell(tables, names, symVals, hash', p, cell)
  {
    hide IsRenamed;
    var n :| CellOk(tables, names, symVals, hash, p, n, cell);
    assert CellOk(tables, names, symVals, hash, p, n, cell);
    var f := tables[n][p];
    assert Symbols.IsSymKey(f);
    if f in data {
      var m, q := DataField(tables, names, flat, data, writer, f);
    }
    assert CellOk(tables, names, symVals, hash', p, n, cell);
  }

  /** The hash after HSET of a packaged document, and what it then represents. */
  lemma WriteRepresents(tables: Tables, names: set<string>, symVals: Values.Table, hash: Doc, cells: map<string, Cell>,
                        state: Document, flat: Doc, data: Doc, writer: seq<string>, hash': Doc)
    requires AppSound(tables) && Coherent(tables, names) && Represents(tables, names, symVals, hash, cells)
    requires (forall id :: id in writer ==> id in names) && flat.Keys <= state.Keys
    requires IsRenamed(flat, data, Maps(tables, writer))
    requires forall p {:trigger p in flat} :: p in flat ==>
      Covered(tables, writer, p) && Values.Restore(flat[p], symVals) == state[p] && NoSymbol(tables, flat[p])
    requires forall f {:trigger f in data} :: f in data && f != ":" ==> f in hash' && hash'[f] == data[f]
    requires forall f {:trigger f in hash} :: f in hash && f !in data && f != ":" ==> f in hash' && hash'[f] == hash[f]
    requires hash'.Keys <= hash.Keys + data.Keys + {":"}
    ensures Represents(tables, names, symVals, hash', cells + Written(state, flat, writer))
  {
    hide Maps, NoSymbol, IsRenamed, HasCell, AppSound, Coherent, Covered;
    var cells' := cells + Written(state, flat, writer);
    forall p | p in cells' ensures HasCell(tables, names, symVals, hash', p, cells'[p]) {
      if p in flat {
        FreshCell(tables, names, symVals, hash', state, flat, data, writer, p);
      } else {
        OldCell(tables, names, symVals, hash, hash', cells[p], flat, data, writer, p);
      }
    }
    forall f | f in hash' ensures Owned(tables, names, cells', f) {
      if f in data {
        var n, p := DataField(tables, names, flat, data, writer, f);
        assert p in cells' && FieldOf(tables, n, p, f);
      } else if f in hash {
        assert Owned(tables, names, cells, f);
        OwnedStays(tables, names, cells, cells', f);
      }
    }
    RepresentsIntro(tables, names, symVals, hash', cells');
  }

  lemma OwnedStays(tables: Tables, names: set<string>, cells: map<string, Cell>, cells': map<string, Cell>, f: string)
    requires Owned(tables, names, cells, f) && cells.Keys <= cells'.Keys
    ensures Owned(tables, names, cells', f)
  {
    if f != ":" {
      var n, p :| n in names && p in cells && FieldOf(tables, n, p, f);
      assert p in cells' && FieldOf(tables, n, p, f);
    }
  }

  /* ---------- reading ---------- */

  /** The reader's symbol sets restore the cell's text: they include the writer's, or the text is no path of them. */
  ghost predicate Readable(tables: Tables, reader: seq<string>, cell: Cell) {
    (forall id {:trigger id in cell.writer} :: id in cell.writer ==> id in reader)
        || !Covered(tables, cell.writer, cell.text)
  }

  lemma ReaderRestores(tables: Tables, reader: seq<string>, cell: Cell, stored: string)
    requires Shortened(cell.text, stored, Maps(tables, cell.writer)) && Readable(tables, reader, cell)
    ensures Shortened(cell.text, stored, Maps(tables, reader))
  {
    hide Maps;
    var maps := Maps(tables, cell.writer);
    if stored != cell.text {
      var j :| 0 <= j < |maps| && cell.text in maps[j] && stored == maps[j][cell.text];
      var n := MapsAre(tables, cell.writer, j);
      assert Names(tables, n, cell.text);
      assert n in cell.writer;
      var i := MapsHave(tables, reader, n);
      assert cell.text in Maps(tables, reader)[i] && stored == Maps(tables, reader)[i][cell.text];
    }
  }

  lemma PathShortens(tables: Tables, reader: seq<string>, n: string, p: string)
    requires n in reader && Names(tables, n, p)
    ensures Shortened(p, tables[n][p], Maps(tables, reader))
  {
    hide Maps;
    var i := MapsHave(tables, reader, n);
    assert p in Maps(tables, reader)[i] && tables[n][p] == Maps(tables, reader)[i][p];
  }

  /** The cell's text is what the reader restores the stored text to. */
  lemma CellReads(tables: Tables, names: set<string>, symVals: Values.Table, hash: Doc, reader: seq<string>, n: string,
      p: string, cell: Cell)
    requires AppSound(tables) && Coherent(tables, names) && HasCell(tables, names, symVals, hash, p, cell)
    requires n in reader && n in names && Names(tables, n, p) && Readable(tables, reader, cell)
    ensures tables[n][p] in hash
    ensures Shortened(p, tables[n][p], Maps(tables, reader))
        && Shortened(cell.text, hash[tables[n][p]], Maps(tables, reader))
    ensures Clean(p, Maps(tables, reader)) && Clean(cell.text, Maps(tables, reader))
    ensures Values.Restore(cell.text, symVals) == cell.value
  {
    hide Maps, Shortened;
    var m :| CellOk(tables, names, symVals, hash, p, m, cell);
    assert CellOk(tables, names, symVals, hash, p, m, cell);
    assert m == n;
    ReaderRestores(tables, reader, cell, hash[tables[n][p]]);
    PathShortens(tables, reader, n, p);
    PathIsNoSymbol(tables, n, p);
    NoSymbolIsClean(tables, reader, p);
    NoSymbolIsClean(tables, reader, cell.text);
  }

  /** What a reader asks for: the paths it consumes from one of the sets it names. */
  predicate Consumed(tables: Tables, consumes: map<string, seq<string>>, n: string, p: string) {
    n in consumes && p in consumes[n] && Names(tables, n, p)
  }

  /** The texts of the paths consumed that were written, and the fields they are stored in. */
  ghost function ReadTexts(tables: Tables, consumes: map<string, seq<string>>, cells: map<string, Cell>): Doc {
    map p | p in cells && IsConsumed(tables, consumes, p) :: cells[p].text
  }

  ghost predicate IsConsumed(tables: Tables, consumes: map<string, seq<string>>, p: string) {
    exists n {:trigger Names(tables, n, p)} :: Consumed(tables, consumes, n, p)
  }

  ghost function ReadFields(tables: Tables, consumes: map<string, seq<string>>,
      cells: map<string, Cell>): map<string, string>
  {
    map p | p in cells && IsConsumed(tables, consumes, p) :: ReadField(tables, consumes, p)
  }

  ghost function ReadField(tables: Tables, consumes: map<string, seq<string>>, p: string): string
    requires IsConsumed(tables, consumes, p)
  {
    var n :| Consumed(tables, consumes, n, p);
    tables[n][p]
  }

  /** A field that the reader fetches: the status, or a consumed path's symbol, or the path itself if it has none. */
  ghost predicate Fetched(tables: Tables, consumes: map<string, seq<string>>, f: string) {
    f == ":" || exists n, p {:trigger Names(tables, n, p)} ::
      n in consumes && p in consumes[n] && f == FieldName(tables, n, p)
  }

  function FieldName(tables: Tables, n: string, p: string): string {
    if Names(tables, n, p) then tables[n][p] else p
  }

  /** The request of a reader of one job: names the job uses, and paths that are not spelled like symbols. */
  ghost predicate RequestOk(tables: Tables, names: set<string>, reader: seq<string>,
      consumes: map<string, seq<string>>)
  {
    && (forall n {:trigger n in consumes} :: n in consumes ==> n in reader && n in names)
    && (forall n, p {:trigger Names(tables, n, p)} :: n in consumes && p in consumes[n] ==>
        NoSymbol(tables, p) && p != ":")
  }

  /** A fetched field that exists is the status or a written path's symbol. */
  lemma FetchedIs(tables: Tables, names: set<string>, symVals: Values.Table, hash: Doc, cells: map<string, Cell>,
                  reader: seq<string>, consumes: map<string, seq<string>>, f: string) returns (p: string)
    requires AppSound(tables) && Coherent(tables, names) && Represents(tables, names, symVals, hash, cells)
    requires RequestOk(tables, names, reader, consumes) && Fetched(tables, consumes, f) && f in hash && f != ":"
    ensures p in cells && IsConsumed(tables, consumes, p) && ReadField(tables, consumes, p) == f
  {
    var n, q :| n in consumes && q in consumes[n] && f == FieldName(tables, n, q);
    assert Owned(tables, names, cells, f);
    var m; m, p :| m in names && p in cells && FieldOf(tables, m, p, f);
    assert Names(tables, m, p);
    assert Names(tables, n, q) || f == q;
    assert Names(tables, n, q) by {
      assert NoSymbol(tables, q) && tables[m][p] == f;
    }
    assert n == m && p == q;
    assert Consumed(tables, consumes, n, p);
    ReadFieldIs(tables, names, consumes, n, p);
  }

  lemma ReadFieldIs(tables: Tables, names: set<string>, consumes: map<string, seq<string>>, n: string, p: string)
    requires Coherent(tables, names) && consumes.Keys <= names && Consumed(tables, consumes, n, p)
    ensures IsConsumed(tables, consumes, p) && ReadField(tables, consumes, p) == tables[n][p]
  {
    assert Names(tables, n, p);
    var m :| Consumed(tables, consumes, m, p) && ReadField(tables, consumes, p) == tables[m][p];
    assert Consumed(tables, consumes, m, p);
    assert Names(tables, m, p);
  }

  /** The texts behind what was fetched. */
  ghost function FetchedTexts(tables: Tables, consumes: map<string, seq<string>>, cells: map<string, Cell>,
      hash: Doc): Doc
  {
    ReadTexts(tables, consumes, cells) + (if ":" in hash then map[":" := hash[":"]] else map[])
  }

  ghost function FetchedNames(tables: Tables, consumes: map<string, seq<string>>, cells: map<string, Cell>,
      hash: Doc): map<string, string>
  {
    ReadFields(tables, consumes, cells) + (if ":" in hash then map[":" := ":"] else map[])
  }

  ghost predicate AllReadable(tables: Tables, reader: seq<string>, consumes: map<string, seq<string>>,
      cells: map<string, Cell>)
  {
    forall p {:trigger p in cells} :: p in cells && IsConsumed(tables, consumes, p) ==>
        Readable(tables, reader, cells[p])
  }

  ghost predicate IsFetch(tables: Tables, consumes: map<string, seq<string>>, hash: Doc, data: Doc) {
    && (forall f {:trigger f in data} :: f in data ==> f in hash && data[f] == hash[f])
    && (forall f {:trigger Fetched(tables, consumes, f)} :: f in hash ==> (f in data <==> Fetched(tables, consumes, f)))
  }

  /** Where one consumed path is found. */
  lemma FetchedCell(tables: Tables, names: set<string>, symVals: Values.Table, hash: Doc, cells: map<string, Cell>,
                    reader: seq<string>, consumes: map<string, seq<string>>, data: Doc, p: string)
    requires AppSound(tables) && Coherent(tables, names) && Represents(tables, names, symVals, hash, cells)
    requires RequestOk(tables, names, reader, consumes) && AllReadable(tables, reader, consumes, cells)
    requires IsFetch(tables, consumes, hash, data) && p in cells && IsConsumed(tables, consumes, p)
    ensures var f := ReadField(tables, consumes, p);
      f in data && Shortened(p, f, Maps(tables, reader)) && Shortened(cells[p].text, data[f], Maps(tables, reader))
    ensures Clean(p, Maps(tables, reader)) && Clean(cells[p].text, Maps(tables, reader)) && p != ":"
    ensures Values.Restore(cells[p].text, symVals) == cells[p].value
  {
    hide Maps, Shortened, Clean;
    var n :| Consumed(tables, consumes, n, p);
    assert Consumed(tables, consumes, n, p);
    ReadFieldIs(tables, names, consumes, n, p);
    assert HasCell(tables, names, symVals, hash, p, cells[p]);
    CellReads(tables, names, symVals, hash, reader, n, p, cells[p]);
    assert FieldName(tables, n, p) == tables[n][p];
    assert Fetched(tables, consumes, tables[n][p]);
  }

  /** One entry of the texts' document: its field was fetched, and nothing in it is a symbol. */
  lemma TextIsFetched(tables: Tables, names: set<string>, symVals: Values.Table, hash: Doc, cells: map<string, Cell>,
                      reader: seq<string>, consumes: map<string, seq<string>>, data: Doc, p: string)
    requires AppSound(tables) && Coherent(tables, names) && Represents(tables, names, symVals, hash, cells)
    requires RequestOk(tables, names, reader, consumes) && AllReadable(tables, reader, consumes, cells)
    requires IsFetch(tables, consumes, hash, data) && (":" in hash ==> NoSymbol(tables, hash[":"]))
    requires p in FetchedTexts(tables, consumes, cells, hash)
    ensures var texts, fields, maps :=
        FetchedTexts(tables, consumes, cells, hash), FetchedNames(tables, consumes, cells, hash), Maps(tables, reader);
      && ShortField(texts, data, fields, p) && Shortened(p, fields[p], maps)
          && Shortened(texts[p], data[fields[p]], maps)
      && Clean(p, maps) && Clean(texts[p], maps)
  {
    hide Maps, Shortened, Clean, Represents, RequestOk, AllReadable;
    if p in cells && IsConsumed(tables, consumes, p) {
      FetchedCell(tables, names, symVals, hash, cells, reader, consumes, data, p);
    } else {
      StatusIsNoSymbol(tables);
      NoSymbolIsClean(tables, reader, ":");
      NoSymbolIsClean(tables, reader, hash[":"]);
      assert Fetched(tables, consumes, ":");
      SameIsShortened(":", Maps(tables, reader));
      SameIsShortened(hash[":"], Maps(tables, reader));
    }
  }

  /** What was fetched is the texts' document, shortened; the status field is its own name. */
  lemma FetchIsShortened(tables: Tables, names: set<string>, symVals: Values.Table, hash: Doc, cells: map<string, Cell>,
                         reader: seq<string>, consumes: map<string, seq<string>>, data: Doc)
    requires AppSound(tables) && Coherent(tables, names) && Represents(tables, names, symVals, hash, cells)
    requires RequestOk(tables, names, reader, consumes) && AllReadable(tables, reader, consumes, cells)
    requires IsFetch(tables, consumes, hash, data) && (":" in hash ==> NoSymbol(tables, hash[":"]))
    ensures var texts, fields := FetchedTexts(tables, consumes, cells, hash),
        FetchedNames(tables, consumes, cells, hash);
      Ready(texts, Maps(tables, reader)) && IsShortened(texts, data, Maps(tables, reader), fields)
  {
    hide Maps, Shortened, Clean, Represents, RequestOk, AllReadable, Sound, AppSound, NoSymbol;
    var texts, fields := FetchedTexts(tables, consumes, cells, hash), FetchedNames(tables, consumes, cells, hash);
    var maps := Maps(tables, reader);
    MapsAreSound(tables, reader);
    forall p | p in texts
      ensures ShortField(texts, data, fields, p) && Shortened(p, fields[p], maps)
          && Shortened(texts[p], data[fields[p]], maps)
      ensures Clean(p, maps) && Clean(texts[p], maps)
    {
      TextIsFetched(tables, names, symVals, hash, cells, reader, consumes, data, p);
    }
    forall f | f in data ensures f in fields.Values {
      FetchedHasName(tables, names, symVals, hash, cells, reader, consumes, data, f);
    }
  }

  lemma FetchedHasName(tables: Tables, names: set<string>, symVals: Values.Table, hash: Doc, cells: map<string, Cell>,
                       reader: seq<string>, consumes: map<string, seq<string>>, data: Doc, f: string)
    requires AppSound(tables) && Coherent(tables, names) && Represents(tables, names, symVals, hash, cells)
    requires RequestOk(tables, names, reader, consumes) && AllReadable(tables, reader, consumes, cells)
    requires IsFetch(tables, consumes, hash, data) && f in data
    ensures f in FetchedNames(tables, consumes, cells, hash).Values
  {
    hide Maps, Shortened, Clean, Represents, RequestOk, AllReadable;
    var fields := FetchedNames(tables, consumes, cells, hash);
    assert Fetched(tables, consumes, f);
    if f == ":" {
      assert fields[":"] == ":";
    } else {
      var p := FetchedIs(tables, names, symVals, hash, cells, reader, consumes, f);
      FetchedCell(tables, names, symVals, hash, cells, reader, consumes, data, p);
      assert fields[p] == f;
    }
  }

  lemma SameIsShortened(x: string, maps: seq<SymbolMap>)
    ensures Shortened(x, x, maps)
  {
  }

  lemma StatusIsNoSymbol(tables: Tables)
    requires AppSound(tables)
    ensures NoSymbol(tables, ":")
  {
    TaggedIsNoSymbol(tables, ":");
  }
}
